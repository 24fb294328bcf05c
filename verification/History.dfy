/** History queries: fetched rollups are regrouped into at most 1501 display points. */
module History {
  import opened Basics
  import opened Calendar
  import opened Traffic
  import opened Telemetry
  import opened Rollups
  import opened RollupTable
  import opened Ingest
  import opened IngestRuns
  import Stats

  const MAX_POINTS := 1500

  predicate ValidRange(now: int, from: int, to: int) {
    now - 180 * DAY <= from < to <= now + MINUTE
  }

  /** Index into STEPS of the resolution that a query reads. */
  function Resolution(now: int, from: int, to: int): nat {
    if from < now - 30 * DAY || to - from > 7 * DAY then 2
    else if from < now - DAY || to - from > 6 * HOUR then 1
    else 0
  }

  function CeilDiv(a: int, b: int): int
    requires b > 0
  {
    (a + b - 1) / b
  }

  /** How many rows one display point spans. */
  function Factor(from: int, to: int, step: nat): nat
    requires step > 0 && from < to
  {
    var c := CeilDiv(to - from, step * SECOND * MAX_POINTS);
    if c < 1 then 1 else c
  }

  /** A resolution may be read when its rows are kept for the whole range and the range is
      not too long for it. */
  predicate Readable(i: nat, now: int, from: int, to: int) {
    match i
    case 0 => now - KEEP[0] * SECOND <= from && to - from <= 6 * HOUR
    case 1 => now - KEEP[1] * SECOND <= from && to - from <= 7 * DAY
    case _ => i == 2
  }

  /** The finest such resolution is read. */
  lemma ResolutionIsFinest(now: int, from: int, to: int)
    ensures var i := Resolution(now, from, to);
      Readable(i, now, from, to) && forall k: nat :: Readable(k, now, from, to) ==> i <= k
  {}

  /** The factor is the least with which 1500 display points cover the range. */
  lemma FactorIsLeast(from: int, to: int, step: nat, f: nat)
    requires step > 0 && from < to && f > 0
    ensures Factor(from, to, step) <= f <==> to - from <= f * (step * SECOND * 1500)
  {
    var t, w := to - from, step * SECOND * MAX_POINTS;
    var c := CeilDiv(t, w);
    FloorOf(t + w - 1, w);
    if c <= f { ScaleKeepsOrder(c, f, w); } else { ScaleKeepsOrder(f + 1, c, w); }
    assert (f + 1) * w == f * w + w;
  }

  /** Adds the entries of `b` one by one. */
  method CombineInto<V(!new)>(op: (V, V) -> V, zero: V, a: map<string, V>, b: map<string, V>)
    returns (out: map<string, V>)
    ensures out == Combine(op, zero, a, b)
  {
    out := a;
    var names := b.Keys;
    while names != {}
      invariant names <= b.Keys && out.Keys == a.Keys + (b.Keys - names)
      invariant forall k :: k in out ==> out[k] == if k in names then a[k] else Combine(op, zero, a, b)[k]
    {
      var k :| k in names;
      out := out[k := op(if k in out then out[k] else zero, b[k])];
      names := names - {k};
    }
    assert out == Combine(op, zero, a, b);
  }

  lemma {:induction false} FoldOfNothing(points: seq<Point>, lo: int, hi: int)
    requires forall p :: p in points ==> !(lo <= p.at < hi)
    ensures Fold(points, lo, hi) == EMPTY
  {
    if |points| > 0 { FoldOfNothing(points[..|points| - 1], lo, hi); }
  }

  /** Display buckets that have at least one point, each with the fold of its points. */
  ghost predicate Grouped(merged: map<int, Rollup>, points: seq<Point>, step: nat)
    requires step > 0
  {
    && (forall p :: p in points ==> Truncate(p.at, step) in merged)
    && (forall t :: t in merged ==> t % (step * SECOND) == 0 && exists p :: p in points && Truncate(p.at, step) == t)
    && (forall t :: t in merged ==> merged[t] == Fold(points, t, t + step * SECOND))
  }

  lemma GroupingStep(merged: map<int, Rollup>, points: seq<Point>, p: Point, step: nat)
    requires step > 0 && Grouped(merged, points, step)
    ensures var t := Truncate(p.at, step);
      Grouped(merged[t := MergeRollups(if t in merged then merged[t] else EMPTY, p.r)], points + [p], step)
  {
    hide MergeRollups, Truncate;
    var t, w := Truncate(p.at, step), step * SECOND;
    var next := merged[t := MergeRollups(if t in merged then merged[t] else EMPTY, p.r)];
    var all := points + [p];
    assert all[..|points|] == points;
    TruncateIsFloor(p.at, step, t);
    if t !in merged {
      forall q | q in points ensures !(t <= q.at < t + w) { TruncateIsFloor(q.at, step, t); }
      FoldOfNothing(points, t, t + w);
    }
    forall s | s in next ensures next[s] == Fold(all, s, s + w) { TruncateIsFloor(p.at, step, s); }
    forall s | s in next ensures s % w == 0 && exists q :: q in all && Truncate(q.at, step) == s {
      if s == t {
        assert p in all;
      } else {
        var q :| q in points && Truncate(q.at, step) == s;
        assert q in all;
      }
    }
  }

  method Regroup(points: seq<Point>, step: nat) returns (merged: map<int, Rollup>)
    requires step > 0
    ensures Grouped(merged, points, step)
  {
    hide Combine, Joined, Truncate, Grouped;
    merged := map[];
    GroupingStarts(step);
    for i := 0 to |points|
      invariant Grouped(merged, points[..i], step)
    {
      var p := points[i];
      GroupingStep(merged, points[..i], p, step);
      assert points[..i + 1] == points[..i] + [p];
      var t := Truncate(p.at, step);
      var out := if t in merged then merged[t] else EMPTY;
      var metrics := CombineInto(Stats.Merge, Stats.ZERO, out.metrics, p.r.metrics);
      var traffic := AddTraffic(out.traffic, p.r.traffic);
      var checks := CombineInto(AddChecks, NO_CHECKS, out.checks, p.r.checks);
      merged := merged[t := Rollup(out.count + p.r.count, out.gap || p.r.gap, metrics, traffic, checks)];
    }
    assert points[..|points|] == points;
  }

  lemma GroupingStarts(step: nat)
    requires step > 0
    ensures Grouped(map[], [], step)
  {}

  /** What the point at `t` shows: the fold of its rows, or an explicit gap. */
  function Shown(points: seq<Point>, t: int, width: int): Rollup {
    if exists p :: p in points && t <= p.at < t + width then Fold(points, t, t + width) else EMPTY.(gap := true)
  }

  lemma GroupedShows(merged: map<int, Rollup>, points: seq<Point>, step: nat, t: int)
    requires step > 0 && Grouped(merged, points, step) && t % (step * SECOND) == 0
    ensures Shown(points, t, step * SECOND) == if t in merged then merged[t] else EMPTY.(gap := true)
  {
    hide Truncate, Fold;
    var w := step * SECOND;
    if t in merged {
      var p :| p in points && Truncate(p.at, step) == t;
      TruncateIsFloor(p.at, step, t);
    } else {
      forall p | p in points ensures !(t <= p.at < t + w) { TruncateIsFloor(p.at, step, t); }
    }
  }

  /** The answer of a history query: consecutive points from the one containing
      `from` to the one containing `to`. */
  ghost predicate Grid(shown: seq<Point>, points: seq<Point>, first: int, width: int, to: int) {
    && (forall i :: 0 <= i < |shown| ==> shown[i] == Point(first + i * width, Shown(points, first + i * width, width)))
    && (|shown| > 0 ==> first + (|shown| - 1) * width <= to)
    && to < first + |shown| * width
  }

  /** The two loops of the source: regroup, then emit the whole grid. */
  method MonitorHistory(points: seq<Point>, from: int, to: int, step: nat) returns (displayStep: nat, shown: seq<Point>)
    requires step > 0 && from < to
    ensures displayStep == step * Factor(from, to, step) && displayStep > 0
    ensures Grid(shown, points, Truncate(from, displayStep), displayStep * SECOND, to)
  {
    hide Factor, Truncate, Fold, Shown, Grouped;
    FactorIsPositive(from, to, step);
    PositiveProduct(step, Factor(from, to, step));
    displayStep := step * Factor(from, to, step);
    var width := displayStep * SECOND;
    var merged := Regroup(points, displayStep);
    shown := [];
    var first := Truncate(from, displayStep);
    TruncateIsFloor(from, displayStep, first);
    var t := first;
    while t <= to
      invariant t == first + |shown| * width && t % width == 0
      invariant |shown| > 0 ==> first + (|shown| - 1) * width <= to
      invariant forall i :: 0 <= i < |shown| ==>
        shown[i] == Point(first + i * width, Shown(points, first + i * width, width))
      decreases width + to - t
    {
      GroupedShows(merged, points, displayStep, t);
      shown := shown + [Point(t, if t in merged then merged[t] else EMPTY.(gap := true))];
      Aligned(t, 1, width);
      NextMultiple(first, |shown| - 1, width);
      t := t + width;
    }
  }

  lemma NextMultiple(first: int, n: nat, width: int)
    ensures first + n * width + width == first + (n + 1) * width
  {}

  lemma FactorIsPositive(from: int, to: int, step: nat)
    requires step > 0 && from < to
    ensures Factor(from, to, step) > 0
  {}

  lemma PositiveProduct(a: nat, b: nat)
    requires a > 0 && b > 0
    ensures a * b > 0
  {}

  /** At most 1501 points, whatever the range. */
  lemma GridIsBounded(shown: seq<Point>, points: seq<Point>, from: int, to: int, step: nat)
    requires step > 0 && from < to
    requires var d := step * Factor(from, to, step);
      d > 0 && Grid(shown, points, Truncate(from, d), d * SECOND, to)
    ensures 0 < |shown| <= MAX_POINTS + 1
  {
    hide Shown, Truncate;
    var d := step * Factor(from, to, step);
    var w, first := d * SECOND, Truncate(from, d);
    TruncateIsFloor(from, d, first);
    FactorCovers(from, to, step);
    assert to - first < (MAX_POINTS + 1) * w;
    if MAX_POINTS + 1 < |shown| { ScaleKeepsOrder(MAX_POINTS + 1, |shown| - 1, w); assert false; }
  }

  lemma FactorCovers(from: int, to: int, step: nat)
    requires step > 0 && from < to
    ensures to - from <= MAX_POINTS * (step * Factor(from, to, step) * SECOND)
  {
    var b := step * SECOND * MAX_POINTS;
    var a := to - from;
    FloorOf(a + b - 1, b);
    var c := CeilDiv(a, b);
    assert a <= c * b;
    var f := Factor(from, to, step);
    assert c <= f;
    ScaleKeepsOrder(c, f, b);
    Rearranged(step, f);
  }

  lemma Rearranged(step: nat, f: nat)
    ensures f * (step * SECOND * MAX_POINTS) == MAX_POINTS * (step * f * SECOND)
  {}

  /** Every point inside the range falls into exactly one display point. */
  lemma LandsOnce(shown: seq<Point>, points: seq<Point>, first: int, width: int, to: int, p: Point, i: nat)
    requires width > 0 && Grid(shown, points, first, width, to)
    requires first <= p.at <= to
    ensures 0 <= (p.at - first) / width < |shown|
    ensures i < |shown| ==> (shown[i].at <= p.at < shown[i].at + width <==> i == (p.at - first) / width)
  {
    hide Shown;
    var q := (p.at - first) / width;
    FloorOf(p.at - first, width);
    if q < 0 { ScaleKeepsOrder(q, -1, width); assert false; }
    if |shown| <= q { ScaleKeepsOrder(|shown|, q, width); assert false; }
    if i < |shown| && shown[i].at <= p.at < shown[i].at + width { SameQuotient(i, q, width, p.at - first); }
  }

  function Weights(shown: seq<Point>, m: Measure): nat {
    if |shown| == 0 then 0 else Weights(shown[..|shown| - 1], m) + Weigh(shown[|shown| - 1].r, m)
  }

  /** Weight of what the first `n` grid points show. */
  function GridWeight(points: seq<Point>, first: int, width: int, n: nat, m: Measure): nat {
    if n == 0 then 0
    else
      GridWeight(points, first, width, n - 1, m)
      + Weigh(Fold(points, first + (n - 1) * width, first + (n - 1) * width + width), m)
  }

  lemma FoldWeighs(points: seq<Point>, p: Point, lo: int, hi: int, m: Measure)
    ensures Weigh(Fold(points + [p], lo, hi), m)
        == Weigh(Fold(points, lo, hi), m) + if lo <= p.at < hi then Weigh(p.r, m) else 0
  {
    hide Weigh, MergeRollups;
    assert (points + [p])[..|points|] == points;
    MergeWeighs(Fold(points, lo, hi), p.r, m);
  }

  lemma {:induction false} GridGains(points: seq<Point>, p: Point, first: int, width: int, n: nat, m: Measure)
    requires width > 0 && first <= p.at
    ensures GridWeight(points + [p], first, width, n, m)
         == GridWeight(points, first, width, n, m) + if p.at < first + n * width then Weigh(p.r, m) else 0
  {
    hide Weigh, Fold;
    if n > 0 {
      GridGains(points, p, first, width, n - 1, m);
      var lo := first + (n - 1) * width;
      FoldWeighs(points, p, lo, lo + width, m);
      NextMultiple(first, n - 1, width);
    }
  }

  lemma {:induction false} GridIsLossless(points: seq<Point>, first: int, width: int, n: nat, m: Measure)
    requires width > 0 && forall p :: p in points ==> first <= p.at < first + n * width
    ensures GridWeight(points, first, width, n, m) == Weights(points, m)
  {
    hide Weigh, Fold;
    if |points| == 0 {
      EmptyGrid(first, width, n, m);
    } else {
      var most, p := points[..|points| - 1], points[|points| - 1];
      GridIsLossless(most, first, width, n, m);
      GridGains(most, p, first, width, n, m);
      assert points == most + [p];
    }
  }

  lemma {:induction false} EmptyGrid(first: int, width: int, n: nat, m: Measure)
    ensures GridWeight([], first, width, n, m) == 0
  {
    if n > 0 { EmptyGrid(first, width, n - 1, m); }
  }

  lemma {:induction false} ShownWeighs(shown: seq<Point>, points: seq<Point>, first: int, width: int, m: Measure)
    requires forall i :: 0 <= i < |shown| ==>
      shown[i] == Point(first + i * width, Shown(points, first + i * width, width))
    ensures Weights(shown, m) == GridWeight(points, first, width, |shown|, m)
  {
    hide Fold;
    if |shown| > 0 {
      ShownWeighs(shown[..|shown| - 1], points, first, width, m);
      var t := first + (|shown| - 1) * width;
      if forall p :: p in points ==> !(t <= p.at < t + width) { FoldOfNothing(points, t, t + width); }
    }
  }

  /** Regrouping is lossless: summed counts and traffic are those of the fetched rows. */
  lemma RegroupingIsLossless(shown: seq<Point>, points: seq<Point>, first: int, width: int, to: int, m: Measure)
    requires width > 0 && Grid(shown, points, first, width, to)
    requires forall p :: p in points ==> first <= p.at <= to
    ensures Weights(shown, m) == Weights(points, m)
  {
    hide Shown, Weigh, Weights, GridWeight;
    ShownWeighs(shown, points, first, width, m);
    GridIsLossless(points, first, width, |shown|, m);
  }

  // ---- display points against the raw reports ----

  /** The rows a query fetches: those of one resolution from the one containing
      `from` on, up to `to`, in ascending order. */
  ghost predicate Fetched(points: seq<Point>, rolls: Table, step: nat, from: int, to: int)
    requires step > 0
  {
    && (forall i, j :: 0 <= i < j < |points| ==> points[i].at < points[j].at)
    && (forall p :: p in points ==>
         Truncate(from, step) <= p.at <= to && Slot(step, p.at) in rolls && rolls[Slot(step, p.at)] == p.r)
    && (forall s :: s in rolls && s.step == step && Truncate(from, step) <= s.start <= to ==>
         Point(s.start, rolls[s]) in points)
  }

  /** Stored rows are aligned to their resolution and hold at least one report. */
  ghost predicate AlignedTable(rolls: Table) {
    forall s :: s in rolls ==> s.step in STEPS && s.start % (s.step * SECOND) == 0 && rolls[s].count > 0
  }

  /** Fetched rows belong to the grid of any coarser display step. */
  lemma FetchedRowsAreInRange(points: seq<Point>, rolls: Table, step: nat, factor: nat, from: int, to: int, p: Point)
    requires step > 0 && factor > 0 && Fetched(points, rolls, step, from, to) && p in points
    ensures step * factor > 0 && Truncate(from, step * factor) <= p.at <= to
  {
    hide Truncate;
    PositiveProduct(step, factor);
    var d, w := step * factor, step * SECOND;
    var t := Truncate(from, d);
    TruncateIsFloor(from, d, t);
    TruncateIsFloor(from, step, t);
    Regrouped(step, factor);
    assert t % (factor * w) == 0;
    MultipleOfMultiple(t, factor, w);
    assert t <= Truncate(from, step) by { GreatestMultiple(t, from, step); }
  }

  /** A whole query: whatever the database returned, the points shown have the same
      counts and bytes as the rows fetched. */
  lemma QueryLosesNothing(points: seq<Point>, rolls: Table, step: nat, from: int, to: int, shown: seq<Point>,
                          m: Measure)
    requires step > 0 && from < to && Fetched(points, rolls, step, from, to)
    requires var d := step * Factor(from, to, step); d > 0 && Grid(shown, points, Truncate(from, d), d * SECOND, to)
    ensures Weights(shown, m) == Weights(points, m)
  {
    hide Truncate, Grid, Fetched, Weights, Factor;
    FactorIsPositive(from, to, step);
    var d := step * Factor(from, to, step);
    forall p | p in points ensures Truncate(from, d) <= p.at <= to {
      FetchedRowsAreInRange(points, rolls, step, Factor(from, to, step), from, to, p);
    }
    RegroupingIsLossless(shown, points, Truncate(from, d), d * SECOND, to, m);
  }

  lemma Regrouped(step: nat, factor: nat)
    ensures step * factor * SECOND == factor * (step * SECOND)
  {}

  lemma MultipleOfMultiple(t: int, n: nat, w: nat)
    requires n > 0 && w > 0 && n * w > 0 && t % (n * w) == 0
    ensures t % w == 0
  {
    FloorOf(t, n * w);
    var q := t / (n * w);
    assert t == q * (n * w) == (q * n) * w;
    MultipleOf(q * n, w);
  }

  lemma GreatestMultiple(t: int, at: int, step: nat)
    requires step > 0 && t <= at && t % (step * SECOND) == 0
    ensures t <= Truncate(at, step)
  {
    var w := step * SECOND;
    FloorOf(t, w);
    FloorOf(at, w);
    if at / w < t / w { ScaleKeepsOrder(at / w + 1, t / w, w); }
    else { ScaleKeepsOrder(t / w, at / w, w); }
  }

  lemma {:induction false} OnlyRow(points: seq<Point>, k: nat, lo: int, hi: int)
    requires k < |points| && lo <= points[k].at < hi
    requires forall i :: 0 <= i < |points| && i != k ==> !(lo <= points[i].at < hi)
    requires Sound(points[k].r)
    ensures Fold(points, lo, hi) == points[k].r
  {
    hide Sound, MergeRollups;
    var most := points[..|points| - 1];
    if k == |points| - 1 {
      forall p | p in most ensures !(lo <= p.at < hi) {
        var i :| 0 <= i < |most| && most[i] == p;
        assert points[i] == p;
      }
      FoldOfNothing(most, lo, hi);
      MergeCloses(points[k].r, points[k].r);
    } else {
      OnlyRow(most, k, lo, hi);
    }
  }

  lemma FetchedRowFolds(points: seq<Point>, rolls: Table, step: nat, from: int, to: int, at: int)
    requires step > 0 && Fetched(points, rolls, step, from, to) && SoundTable(rolls) && AlignedTable(rolls)
    requires Truncate(from, step) <= at <= to && at % (step * SECOND) == 0
    ensures Fold(points, at, at + step * SECOND) == Get(rolls, Slot(step, at))
  {
    hide Sound, MergeRollups, Fold, Truncate;
    var hi := at + step * SECOND;
    TruncateIsFloor(from, step, at);
    forall p | p in points && at <= p.at < hi ensures p.at == at {
      TruncateIsFloor(p.at, step, at);
      TruncateIsFloor(p.at, step, p.at);
    }
    if Slot(step, at) in rolls {
      assert Point(at, rolls[Slot(step, at)]) in points;
      var k :| 0 <= k < |points| && points[k] == Point(at, rolls[Slot(step, at)]);
      forall i | 0 <= i < |points| && i != k ensures !(at <= points[i].at < hi) {
        assert points[i] in points;
      }
      OnlyRow(points, k, at, hi);
    } else {
      FoldOfNothing(points, at, hi);
    }
  }

  lemma {:induction false} FetchedRowsFold(points: seq<Point>, rolls: Table, step: nat, from: int, to: int, at: int,
                                           n: nat)
    requires step > 0 && Fetched(points, rolls, step, from, to) && SoundTable(rolls) && AlignedTable(rolls)
    requires Truncate(from, step) <= at && at + n * (step * SECOND) <= to + step * SECOND && at % (step * SECOND) == 0
    ensures Fold(points, at, at + n * (step * SECOND)) == MergeRows(rolls, step, at, n)
  {
    hide Sound, MergeRollups, Truncate;
    var w := step * SECOND;
    if n == 0 {
      NothingInEmptySpan(points, at);
    } else {
      var mid := at + (n - 1) * w;
      NextMultiple(at, n - 1, w);
      Aligned(at, n - 1, w);
      FetchedRowsFold(points, rolls, step, from, to, at, n - 1);
      FetchedRowFolds(points, rolls, step, from, to, mid);
      assert SoundLog(points) by { hide Fold; }
      FoldSplits(points, at, mid, mid + w);
    }
  }

  lemma {:induction false} ReachableRowsAreAligned(events: seq<Event>, start: int)
    requires AllValid(events)
    ensures AlignedTable(Run(events, start).host.rolls)
  {
    if |events| > 0 {
      var past, e := events[..|events| - 1], events[|events| - 1];
      ReachableRowsAreAligned(past, start);
      var w := Run(past, start);
      hide Derive, Contribution, Apportioned, Answer, MergeRollups, Truncate;
      if Counts(w, e) {
        var c := Contribution(Derive(e.m, w.host.latest, e.cfg), e.cfg);
        OneReport(Derive(e.m, w.host.latest, e.cfg), e.cfg);
        var after := Recorded(w.host.rolls, e.m.at, c);
        forall s | s in after ensures s.step in STEPS && s.start % (s.step * SECOND) == 0 && after[s].count > 0 {
          RecordedKeys(w.host.rolls, e.m.at, c, 3, s);
        }
      }
    }
  }

  lemma {:induction false} RecordedKeys(rolls: Table, at: int, c: Rollup, n: nat, s: Slot)
    requires n <= 3 && AlignedTable(rolls) && s in RecordedUpTo(rolls, at, c, n) && c.count > 0
    ensures s.step in STEPS && s.start % (s.step * SECOND) == 0 && RecordedUpTo(rolls, at, c, n)[s].count > 0
  {
    hide Combine, Joined, Truncate;
    if n > 0 {
      if s == SlotAt(at, n - 1) {
        TruncateIsFloor(at, STEPS[n - 1], s.start);
      } else {
        RecordedKeys(rolls, at, c, n - 1, s);
      }
    }
  }

  lemma OneReport(m: Latest, cfg: Settings)
    ensures Contribution(m, cfg).count == 1
  {}

  lemma {:induction false} FoldCounts(points: seq<Point>, lo: int, hi: int)
    requires forall p :: p in points ==> p.r.count > 0
    ensures Fold(points, lo, hi).count > 0 <==> exists p :: p in points && lo <= p.at < hi
  {
    hide Combine, Joined;
    if |points| > 0 {
      var most, last := points[..|points| - 1], points[|points| - 1];
      FoldCounts(most, lo, hi);
      assert forall p :: p in points <==> p in most || p == last;
    }
  }

  /** Whatever lies inside the queried range itself is still retained at the resolution
      that is read. */
  lemma QueriedRowsAreLive(now: int, from: int, to: int, t: int, horizon: int)
    requires ValidRange(now, from, to) && horizon <= now && from <= t
    requires t % (STEPS[Resolution(now, from, to)] * SECOND) == 0
    ensures Live(t, Resolution(now, from, to), horizon)
  {}

  lemma {:induction false} FoldOfSame(points: seq<Point>, lo: int, hi: int, from: int, to: int)
    requires forall p :: p in points ==> (lo <= p.at < hi <==> from <= p.at < to)
    ensures Fold(points, lo, hi) == Fold(points, from, to)
  {
    hide MergeRollups;
    if |points| > 0 { FoldOfSame(points[..|points| - 1], lo, hi, from, to); }
  }

  lemma DifferenceOfMultiples(a: int, b: int, w: nat)
    requires w > 0 && a % w == 0 && b % w == 0 && a <= b
    ensures (b - a) / w >= 0 && a + (b - a) / w * w == b
  {
    FloorOf(a, w);
    FloorOf(b, w);
    assert b - a == (b / w - a / w) * w;
    MultipleOf(b / w - a / w, w);
  }

  /** Fetched rows from `a` on, all still retained, against the counted reports. */
  lemma FetchedRowsAreDirectFolds(events: seq<Event>, start: int, wait: int, i: nat, from: int, to: int,
                                  points: seq<Point>, a: int, n: nat)
    requires AllValid(events) && Timely(events, start, wait) && i < 3
    requires Fetched(points, Run(events, start).host.rolls, STEPS[i], from, to)
    requires var w := STEPS[i] * SECOND; a % w == 0 && Truncate(from, STEPS[i]) <= a && a + n * w <= to + w
    requires Live(a, i, Run(events, start).horizon)
    ensures var b := a + n * (STEPS[i] * SECOND); Fold(points, a, b) == Fold(Run(events, start).log, a, b)
  {
    hide Run, Exact, Sound, MergeRollups, Fold, MergeRows, Truncate;
    var w := Run(events, start);
    ReachableRollupsAreExact(events, start, wait);
    ReachableRowsAreAligned(events, start);
    FetchedRowsFold(points, w.host.rolls, STEPS[i], from, to, a, n);
    MergedRowsAreFold(w.host.rolls, w.log, w.horizon, i, a, n);
  }

  /** What of the fetched rows falls into a bucket falls into its intersection with the
      fetched range. */
  lemma Clipped(points: seq<Point>, rolls: Table, step: nat, from: int, to: int, t: int, width: nat, a: int, b: int)
    requires step > 0 && Fetched(points, rolls, step, from, to)
    requires a == Most(t, Truncate(from, step)) && b == Least(t + width, Truncate(to, step) + step * SECOND)
    ensures Fold(points, t, t + width) == Fold(points, a, b)
  {
    hide Truncate, Fold;
    TruncateIsFloor(to, step, to);
    FoldOfSame(points, t, t + width, a, b);
  }

  /** In every reachable state, a display point shows exactly the fold of the counted
      reports of its bucket, as far as the bucket lies in the fetched rows (which begin
      with the row that contains `from` and end with the one that contains `to`) and
      these are still retained; or an explicit gap when there were none. At whatever
      resolution it was read. */
  lemma DisplayPointsAreDirectFolds(events: seq<Event>, start: int, wait: int, now: int, from: int, to: int,
                                    points: seq<Point>, t: int, a: int, b: int)
    requires AllValid(events) && Timely(events, start, wait)
    requires Run(events, start).clock <= now && ValidRange(now, from, to)
    requires Fetched(points, Run(events, start).host.rolls, STEPS[Resolution(now, from, to)], from, to)
    requires var step := STEPS[Resolution(now, from, to)];
      var width := step * Factor(from, to, step) * SECOND;
      && width > 0 && t % width == 0
      && a == Most(t, Truncate(from, step)) && b == Least(t + width, Truncate(to, step) + step * SECOND)
    requires Live(a, Resolution(now, from, to), Run(events, start).horizon)
    ensures var step := STEPS[Resolution(now, from, to)];
      var width := step * Factor(from, to, step) * SECOND;
      var direct := Fold(Run(events, start).log, a, b);
      && Fold(points, t, t + width) == direct
      && Shown(points, t, width) == (if direct.count > 0 then direct else EMPTY.(gap := true))
  {
    hide Run, Factor, Exact, Sound, MergeRollups, Fold, Truncate;
    var i := Resolution(now, from, to);
    var step := STEPS[i];
    var w, factor := step * SECOND, Factor(from, to, step);
    var width := step * factor * SECOND;
    FactorIsPositive(from, to, step);
    Regrouped(step, factor);
    PositiveProduct(factor, w);
    MultipleOfMultiple(t, factor, w);
    TruncateIsFloor(from, step, from);
    TruncateIsFloor(to, step, to);
    Clipped(points, Run(events, start).host.rolls, step, from, to, t, width, a, b);
    if a <= b {
      Aligned(t, factor, w);
      Aligned(Truncate(to, step), 1, w);
      DifferenceOfMultiples(a, b, w);
      FetchedRowsAreDirectFolds(events, start, wait, i, from, to, points, a, (b - a) / w);
    } else {
      FoldOfNothing(points, a, b);
      FoldOfNothing(Run(events, start).log, a, b);
    }
    ReachableRowsAreAligned(events, start);
    FoldCounts(points, t, t + width);
  }
}
