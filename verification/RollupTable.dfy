/** The rollup rows of one host: how a report is absorbed into the three rows that
    contain its instant, and what every row holds after any history of reports. */
module RollupTable {
  import opened Calendar
  import opened Traffic
  import opened Telemetry
  import opened Rollups
  import Stats
  import MapSums

  const STEPS := [10, 60, 3600]
  const MAX_METRICS := 8192
  const MAX_CHECKS := 256

  /** A rollup row: its resolution in seconds and the instant it begins. */
  datatype Slot = Slot(step: nat, start: int)
  type Table = map<Slot, Rollup>

  function Get(rolls: Table, slot: Slot): Rollup {
    if slot in rolls then rolls[slot] else EMPTY
  }

  function Truncate(t: int, step: nat): int
    requires step > 0
  {
    t / (step * SECOND) * (step * SECOND)
  }

  lemma TruncateIsFloor(t: int, step: nat, start: int)
    requires step > 0
    ensures Truncate(t, step) <= t < Truncate(t, step) + step * SECOND
    ensures Truncate(t, step) % (step * SECOND) == 0
    ensures start % (step * SECOND) == 0 && start <= t < start + step * SECOND ==> start == Truncate(t, step)
  {
    var w := step * SECOND;
    FloorOf(t, w);
    MultipleOf(t / w, w);
    if start % w == 0 && start <= t < start + w {
      FloorOf(start, w);
      SameQuotient(start / w, t / w, w, t);
    }
  }

  lemma FloorOf(t: int, w: int)
    requires w > 0
    ensures t / w * w <= t < t / w * w + w
    ensures t % w == 0 ==> t / w * w == t
  {
    assert t == t / w * w + t % w;
  }

  lemma MultipleOf(q: int, w: int)
    requires w > 0
    ensures q * w % w == 0 && q * w / w == q
  {
    var t := q * w;
    FloorOf(t, w);
    SameQuotient(t / w, q, w, t);
  }

  lemma SameQuotient(p: int, q: int, w: int, t: int)
    requires w > 0 && p * w <= t < p * w + w && q * w <= t < q * w + w
    ensures p == q
  {
    if p < q {
      NextStep(p, q, w);
    } else if q < p {
      NextStep(q, p, w);
    }
  }

  lemma NextStep(p: int, q: int, w: int)
    requires p < q && w > 0
    ensures p * w + w <= q * w
  {
    ScaleKeepsOrder(p + 1, q, w);
  }

  lemma ScaleKeepsOrder(p: int, q: int, w: int)
    requires p <= q && w > 0
    ensures p * w <= q * w
  {}

  // ---- one report ----

  function Wanted(c: Check, cfg: Settings): bool {
    (c.target, c.kind) in cfg.checks
  }

  function Outcome(c: Check): CheckTotals {
    if c.unavailable then NO_CHECKS.(unavailable := 1)
    else if c.success then NO_CHECKS.(success := 1, latency := Stats.Add(Stats.ZERO, c.latency))
    else NO_CHECKS.(failure := 1)
  }

  /** The check results of a report that match a configured target, per target. */
  function CheckFold(checks: seq<Check>, cfg: Settings): map<string, CheckTotals> {
    if |checks| == 0 then map[]
    else
      var m, c := CheckFold(checks[..|checks| - 1], cfg), checks[|checks| - 1];
      if Wanted(c, cfg) then Combine(AddChecks, NO_CHECKS, m, map[c.target := Outcome(c)]) else m
  }

  /** What a single report contributes to any row that contains it. */
  function Contribution(m: Latest, cfg: Settings): Rollup {
    Rollup(1, m.gap || m.reset, map k | k in m.values :: Stats.Add(Stats.ZERO, m.values[k]), m.traffic,
           CheckFold(m.sample.checks, cfg))
  }

  lemma OutcomeIsSound(c: Check)
    ensures SoundChecks(Outcome(c))
  {
    if !c.unavailable && c.success { Stats.AddIsMerge(Stats.ZERO, c.latency); }
  }

  lemma {:induction false} CheckFoldIsSound(checks: seq<Check>, cfg: Settings)
    ensures AllOf(CheckFold(checks, cfg), SoundChecks)
  {
    hide Combine, Laws, AddChecks, SoundChecks, Outcome;
    if |checks| > 0 {
      var m, c := CheckFold(checks[..|checks| - 1], cfg), checks[|checks| - 1];
      CheckFoldIsSound(checks[..|checks| - 1], cfg);
      OutcomeIsSound(c);
      CheckLaws();
      CombineCloses(AddChecks, NO_CHECKS, SoundChecks, m, map[c.target := Outcome(c)]);
    }
  }

  lemma ContributionIsSound(m: Latest, cfg: Settings)
    requires AllOf(m.traffic, SoundTraffic)
    ensures Sound(Contribution(m, cfg))
  {
    CheckFoldIsSound(m.sample.checks, cfg);
    forall k | k in m.values ensures SoundStat(Stats.Add(Stats.ZERO, m.values[k])) {
      Stats.AddIsMerge(Stats.ZERO, m.values[k]);
    }
  }

  /** One reading per name, as a record of its own. */
  ghost function Singles(values: map<string, real>): map<string, Stats.Stat> {
    map k | k in values :: Stats.Add(Stats.ZERO, values[k])
  }

  lemma ValueIsMerge(metrics: map<string, Stats.Stat>, values: map<string, real>, name: string)
    requires AllOf(metrics, SoundStat) && name in values
    ensures Combine(Stats.Merge, Stats.ZERO, metrics, Singles(values))[name]
         == Stats.Add(if name in metrics then metrics[name] else Stats.ZERO, values[name])
  {
    var stat := if name in metrics then metrics[name] else Stats.ZERO;
    assert SoundStat(stat);
    Stats.AddIsMerge(stat, values[name]);
    hide Stats.Add, Stats.Merge;
  }

  lemma OtherStays(metrics: map<string, Stats.Stat>, values: map<string, real>)
    ensures var goal := Combine(Stats.Merge, Stats.ZERO, metrics, Singles(values));
      goal.Keys == metrics.Keys + values.Keys && forall k :: k in metrics && k !in values ==> goal[k] == metrics[k]
  {
    hide Stats.Merge, Stats.Add;
  }

  /** Adds every value to the statistic of its name. */
  method AddValues(metrics: map<string, Stats.Stat>, values: map<string, real>) returns (out: map<string, Stats.Stat>)
    requires AllOf(metrics, SoundStat)
    ensures out == Combine(Stats.Merge, Stats.ZERO, metrics, Singles(values))
  {
    hide Stats.Add, Stats.Merge, Combine, Singles;
    ghost var goal := Combine(Stats.Merge, Stats.ZERO, metrics, Singles(values));
    OtherStays(metrics, values);
    out := metrics;
    var names := values.Keys;
    while names != {}
      invariant names <= values.Keys
      invariant out.Keys == metrics.Keys + (values.Keys - names)
      invariant forall k :: k in out ==> out[k] == if k in names then metrics[k] else goal[k]
    {
      var name :| name in names;
      ValueIsMerge(metrics, values, name);
      out := out[name := Stats.Add(if name in out then out[name] else Stats.ZERO, values[name])];
      names := names - {name};
    }
    assert out == goal;
  }

  /** The branch of the source for one result. */
  function AddResult(total: CheckTotals, c: Check): CheckTotals {
    if c.unavailable then total.(unavailable := total.unavailable + 1)
    else if c.success then total.(success := total.success + 1, latency := Stats.Add(total.latency, c.latency))
    else total.(failure := total.failure + 1)
  }

  lemma ResultIsMerge(total: CheckTotals, c: Check)
    requires SoundChecks(total)
    ensures AddResult(total, c) == AddChecks(total, Outcome(c))
  {
    Stats.AddIsMerge(total.latency, c.latency);
    Stats.MergeLaws(total.latency, total.latency, total.latency);
  }

  lemma PutIsCombine(totals: map<string, CheckTotals>, k: string, c: CheckTotals)
    ensures totals[k := AddChecks(if k in totals then totals[k] else NO_CHECKS, c)]
         == Combine(AddChecks, NO_CHECKS, totals, map[k := c])
  {
    hide AddChecks;
    var l := totals[k := AddChecks(if k in totals then totals[k] else NO_CHECKS, c)];
    var r := Combine(AddChecks, NO_CHECKS, totals, map[k := c]);
    assert l.Keys == r.Keys;
    forall j | j in l ensures l[j] == r[j] {}
  }

  /** Adds the check results one by one. */
  method AddResults(totals: map<string, CheckTotals>, checks: seq<Check>, cfg: Settings)
    returns (out: map<string, CheckTotals>)
    requires AllOf(totals, SoundChecks)
    ensures out == Combine(AddChecks, NO_CHECKS, totals, CheckFold(checks, cfg))
  {
    hide Combine, Laws, AddChecks, Outcome, SoundChecks, AddResult;
    CheckLaws();
    CombineCloses(AddChecks, NO_CHECKS, SoundChecks, totals, totals);
    SoundZero();
    out := totals;
    for i := 0 to |checks|
      invariant out == Combine(AddChecks, NO_CHECKS, totals, CheckFold(checks[..i], cfg))
    {
      var c := checks[i];
      assert checks[..i + 1][..i] == checks[..i];
      if Wanted(c, cfg) {
        CheckFoldIsSound(checks[..i], cfg);
        OutcomeIsSound(c);
        var single := map[c.target := Outcome(c)];
        CombineCloses(AddChecks, NO_CHECKS, SoundChecks, totals, CheckFold(checks[..i], cfg));
        CombineAssociates(AddChecks, NO_CHECKS, SoundChecks, totals, CheckFold(checks[..i], cfg), single);
        var total := if c.target in out then out[c.target] else NO_CHECKS;
        ResultIsMerge(total, c);
        PutIsCombine(out, c.target, Outcome(c));
        out := out[c.target := AddResult(total, c)];
      }
    }
    assert checks[..|checks|] == checks;
  }

  lemma SoundZero()
    ensures SoundChecks(NO_CHECKS)
  {}

  /** One row absorbs one report. */
  method Absorb(r: Rollup, m: Latest, cfg: Settings) returns (out: Rollup)
    requires Sound(r)
    ensures out == MergeRollups(r, Contribution(m, cfg))
  {
    var metrics := AddValues(r.metrics, m.values);
    var traffic := AddTraffic(r.traffic, m.traffic);
    var checks := AddResults(r.checks, m.sample.checks, cfg);
    out := Rollup(r.count + 1, r.gap || m.gap || m.reset, metrics, traffic, checks);
  }

  predicate WithinLimits(r: Rollup) {
    |r.metrics| <= MAX_METRICS && |r.traffic| <= MAX_INTERFACES && |r.checks| <= MAX_CHECKS
  }

  function SlotAt(at: int, i: nat): Slot
    requires i < 3
  {
    Slot(STEPS[i], Truncate(at, STEPS[i]))
  }

  function Put(rolls: Table, slot: Slot, c: Rollup): Table {
    rolls[slot := MergeRollups(Get(rolls, slot), c)]
  }

  function RecordedUpTo(rolls: Table, at: int, c: Rollup, n: nat): Table
    requires n <= 3
  {
    if n == 0 then rolls else Put(RecordedUpTo(rolls, at, c, n - 1), SlotAt(at, n - 1), c)
  }

  function Recorded(rolls: Table, at: int, c: Rollup): Table {
    RecordedUpTo(rolls, at, c, 3)
  }

  predicate Recordable(rolls: Table, at: int, c: Rollup) {
    forall i :: 0 <= i < 3 ==> WithinLimits(MergeRollups(Get(rolls, SlotAt(at, i)), c))
  }

  ghost predicate SoundTable(rolls: Table) {
    forall s :: s in rolls ==> Sound(rolls[s])
  }

  lemma EmptyIsSound()
    ensures Sound(EMPTY)
  {}

  lemma {:induction false} RecordedRow(rolls: Table, at: int, c: Rollup, n: nat, slot: Slot)
    requires n <= 3
    ensures Get(RecordedUpTo(rolls, at, c, n), slot)
         == if exists i :: 0 <= i < n && slot == SlotAt(at, i) then MergeRollups(Get(rolls, slot), c)
            else Get(rolls, slot)
  {
    hide MergeRollups, Truncate;
    if n > 0 { RecordedRow(rolls, at, c, n - 1, slot); }
  }

  /** A report enters one row of every resolution, or none when a row would exceed
      its dimension limits. */
  method PersistMonitor(rolls: Table, m: Latest, cfg: Settings) returns (ok: bool, out: Table)
    requires SoundTable(rolls)
    ensures ok <==> Recordable(rolls, m.sample.at, Contribution(m, cfg))
    ensures out == if ok then Recorded(rolls, m.sample.at, Contribution(m, cfg)) else rolls
  {
    hide MergeRollups, Contribution, Truncate, Sound, WithinLimits;
    ok, out := true, rolls;
    ghost var c := Contribution(m, cfg);
    EmptyIsSound();
    for i := 0 to 3
      invariant out == RecordedUpTo(rolls, m.sample.at, c, i)
      invariant forall j :: 0 <= j < i ==> WithinLimits(MergeRollups(Get(rolls, SlotAt(m.sample.at, j)), c))
    {
      var slot := SlotAt(m.sample.at, i);
      RecordedRow(rolls, m.sample.at, c, i, slot);
      var r := Absorb(Get(out, slot), m, cfg);
      if !WithinLimits(r) { return false, rolls; }
      out := out[slot := r];
    }
  }

  // ---- what the rows hold after a history of reports ----

  /** A report that was counted: its instant and its contribution. */
  datatype Point = Point(at: int, r: Rollup)

  /** Direct fold of all contributions with an instant in [lo, hi). */
  function Fold(log: seq<Point>, lo: int, hi: int): Rollup {
    if |log| == 0 then EMPTY
    else
      var f, p := Fold(log[..|log| - 1], lo, hi), log[|log| - 1];
      if lo <= p.at < hi then MergeRollups(f, p.r) else f
  }

  ghost predicate SoundLog(log: seq<Point>) {
    forall p :: p in log ==> Sound(p.r)
  }

  lemma {:induction false} FoldIsSound(log: seq<Point>, lo: int, hi: int)
    requires SoundLog(log)
    ensures Sound(Fold(log, lo, hi))
  {
    hide MergeRollups, Sound;
    EmptyIsSound();
    if |log| > 0 {
      FoldIsSound(log[..|log| - 1], lo, hi);
      MergeCloses(Fold(log[..|log| - 1], lo, hi), log[|log| - 1].r);
    }
  }

  /** Folding two adjacent spans and merging equals folding their union. */
  lemma {:induction false} FoldSplits(log: seq<Point>, a: int, b: int, c: int)
    requires SoundLog(log) && a <= b <= c
    ensures MergeRollups(Fold(log, a, b), Fold(log, b, c)) == Fold(log, a, c)
  {
    hide MergeRollups, Sound;
    EmptyIsSound();
    if |log| == 0 {
      MergeCloses(EMPTY, EMPTY);
    } else {
      var most, p := log[..|log| - 1], log[|log| - 1];
      FoldSplits(most, a, b, c);
      FoldIsSound(most, a, b);
      FoldIsSound(most, b, c);
      var l, r := Fold(most, a, b), Fold(most, b, c);
      MergeAssociates(l, r, p.r);
      if a <= p.at < b {
        MergeAssociates(l, p.r, r);
        MergeCommutes(p.r, r);
      }
    }
  }

  /** Seconds for which rows of each resolution are kept. */
  const KEEP := [24 * 3600, 30 * 24 * 3600, 180 * 24 * 3600]

  ghost predicate Live(start: int, i: nat, horizon: int)
    requires i < 3
  {
    start % (STEPS[i] * SECOND) == 0 && horizon - KEEP[i] * SECOND <= start
  }

  /** Every row not yet past its retention at `horizon` holds exactly the fold of
      the counted reports in its span; rows of reports that never came are absent. */
  ghost predicate Exact(rolls: Table, log: seq<Point>, horizon: int) {
    forall i: nat, start :: i < 3 && Live(start, i, horizon) ==>
      Get(rolls, Slot(STEPS[i], start)) == Fold(log, start, start + STEPS[i] * SECOND)
  }

  lemma RecordingIsExact(rolls: Table, log: seq<Point>, horizon: int, p: Point)
    requires Exact(rolls, log, horizon)
    ensures Exact(Recorded(rolls, p.at, p.r), log + [p], horizon)
  {
    hide MergeRollups, Truncate;
    forall i: nat, start | i < 3 && Live(start, i, horizon)
      ensures Get(Recorded(rolls, p.at, p.r), Slot(STEPS[i], start))
          == Fold(log + [p], start, start + STEPS[i] * SECOND)
    {
      var slot := Slot(STEPS[i], start);
      RecordedRow(rolls, p.at, p.r, 3, slot);
      TruncateIsFloor(p.at, STEPS[i], start);
      assert (log + [p])[..|log|] == log;
      var hi := start + STEPS[i] * SECOND;
      if start <= p.at < hi {
        assert slot == SlotAt(p.at, i);
      } else {
        assert slot != SlotAt(p.at, 0) && slot != SlotAt(p.at, 1) && slot != SlotAt(p.at, 2);
      }
    }
  }

  function Keep(s: Slot): int {
    if s.step == 10 then KEEP[0] else if s.step == 60 then KEEP[1] else KEEP[2]
  }

  function Retained(rolls: Table, now: int): Table {
    map s | s in rolls && now - Keep(s) * SECOND <= s.start :: rolls[s]
  }

  function Expired(rolls: Table, now: int): Table {
    map s | s in rolls && s.start < now - Keep(s) * SECOND :: rolls[s]
  }

  lemma RetentionStaysExact(rolls: Table, log: seq<Point>, horizon: int, now: int)
    requires Exact(rolls, log, horizon) && horizon <= now
    ensures Exact(Retained(rolls, now), log, now)
  {
    hide Fold;
    forall i: nat, start | i < 3 && Live(start, i, now)
      ensures Get(Retained(rolls, now), Slot(STEPS[i], start)) == Fold(log, start, start + STEPS[i] * SECOND)
    {
      assert Live(start, i, horizon);
      assert Keep(Slot(STEPS[i], start)) == KEEP[i];
    }
  }

  /** Merge of `n` consecutive rows of one resolution, oldest first. */
  function MergeRows(rolls: Table, step: nat, start: int, n: nat): Rollup {
    if n == 0 then EMPTY
    else MergeRollups(MergeRows(rolls, step, start, n - 1), Get(rolls, Slot(step, start + (n - 1) * (step * SECOND))))
  }

  lemma {:induction false} MergedRowsAreFold(rolls: Table, log: seq<Point>, horizon: int, i: nat, start: int, n: nat)
    requires Exact(rolls, log, horizon) && SoundLog(log) && i < 3 && Live(start, i, horizon)
    ensures MergeRows(rolls, STEPS[i], start, n) == Fold(log, start, start + n * (STEPS[i] * SECOND))
  {
    hide MergeRollups, Sound;
    var w := STEPS[i] * SECOND;
    if n == 0 {
      NothingInEmptySpan(log, start);
    } else {
      MergedRowsAreFold(rolls, log, horizon, i, start, n - 1);
      var mid := start + (n - 1) * w;
      Aligned(start, n - 1, w);
      assert Live(mid, i, horizon);
      FoldSplits(log, start, mid, mid + w);
    }
  }

  lemma {:induction false} NothingInEmptySpan(log: seq<Point>, t: int)
    ensures Fold(log, t, t) == EMPTY
  {
    if |log| > 0 { NothingInEmptySpan(log[..|log| - 1], t); }
  }

  lemma Aligned(start: int, n: nat, w: int)
    requires w > 0 && start % w == 0
    ensures (start + n * w) % w == 0 && start <= start + n * w
  {
    FloorOf(start, w);
    MultipleOf(start / w + n, w);
    assert (start / w + n) * w == start / w * w + n * w;
    ScaleKeepsOrder(0, n, w);
  }

  /** Rollups of different resolution agree: every coarse row equals the merge of
      the finer rows nested in it, as long as none of those has been deleted. */
  lemma ResolutionsAgree(rolls: Table, log: seq<Point>, horizon: int, fine: nat, coarse: nat, start: int)
    requires Exact(rolls, log, horizon) && SoundLog(log)
    requires fine < coarse < 3 && Live(start, fine, horizon) && start % (STEPS[coarse] * SECOND) == 0
    ensures Get(rolls, Slot(STEPS[coarse], start)) == MergeRows(rolls, STEPS[fine], start, STEPS[coarse] / STEPS[fine])
  {
    hide MergeRows, Fold, SoundLog;
    MergedRowsAreFold(rolls, log, horizon, fine, start, STEPS[coarse] / STEPS[fine]);
    assert Live(start, coarse, horizon);
  }

  // ---- totals over all rows of a resolution ----

  datatype Measure = Reports | Volume(name: string, dir: Direction)

  function Weigh(r: Rollup, m: Measure): nat {
    match m
    case Reports => r.count
    case Volume(name, dir) => Bytes(At(r.traffic, name), dir)
  }

  lemma MergeWeighs(a: Rollup, b: Rollup, m: Measure)
    ensures Weigh(MergeRollups(a, b), m) == Weigh(a, m) + Weigh(b, m)
  {
    if m.Volume? { JoinedBytes(a.traffic, b.traffic, m.name, m.dir); }
  }

  ghost function Weights(rolls: Table, step: nat, m: Measure): map<Slot, int> {
    map s | s in rolls && s.step == step :: Weigh(rolls[s], m)
  }

  /** Sum of a measure over all rows of one resolution. */
  ghost function Weight(rolls: Table, step: nat, m: Measure): int {
    MapSums.Sum(Weights(rolls, step, m))
  }

  lemma PutWeights(rolls: Table, slot: Slot, r: Rollup, step: nat, m: Measure)
    ensures Weights(rolls[slot := r], step, m)
         == if slot.step == step then Weights(rolls, step, m)[slot := Weigh(r, m)] else Weights(rolls, step, m)
  {
    hide Weigh;
    var l := Weights(rolls[slot := r], step, m);
    var w := if slot.step == step then Weights(rolls, step, m)[slot := Weigh(r, m)] else Weights(rolls, step, m);
    assert l.Keys == w.Keys;
    forall s | s in l ensures l[s] == w[s] {}
  }

  lemma PutWeighs(rolls: Table, slot: Slot, c: Rollup, step: nat, m: Measure)
    ensures Weight(Put(rolls, slot, c), step, m)
        == Weight(rolls, step, m) + if slot.step == step then Weigh(c, m) else 0
  {
    hide Weigh, MergeRollups;
    var r := MergeRollups(Get(rolls, slot), c);
    PutWeights(rolls, slot, r, step, m);
    MergeWeighs(Get(rolls, slot), c, m);
    MapSums.SumPut(Weights(rolls, step, m), slot, Weigh(r, m));
    EmptyWeighsNothing(m);
  }

  lemma EmptyWeighsNothing(m: Measure)
    ensures Weigh(EMPTY, m) == 0
  {}

  /** A report adds its weight once to every resolution. */
  lemma RecordingWeighs(rolls: Table, at: int, c: Rollup, i: nat, m: Measure)
    requires i < 3
    ensures Weight(Recorded(rolls, at, c), STEPS[i], m) == Weight(rolls, STEPS[i], m) + Weigh(c, m)
  {
    hide Weight, Weigh, Put, Truncate;
    var one, two := RecordedUpTo(rolls, at, c, 1), RecordedUpTo(rolls, at, c, 2);
    PutWeighs(rolls, SlotAt(at, 0), c, STEPS[i], m);
    PutWeighs(one, SlotAt(at, 1), c, STEPS[i], m);
    PutWeighs(two, SlotAt(at, 2), c, STEPS[i], m);
    assert Recorded(rolls, at, c) == Put(two, SlotAt(at, 2), c);
    assert two == Put(one, SlotAt(at, 1), c);
    assert RecordedUpTo(rolls, at, c, 0) == rolls;
    assert one == Put(rolls, SlotAt(at, 0), c);
  }

  lemma RetentionWeighs(rolls: Table, now: int, step: nat, m: Measure)
    ensures Weight(rolls, step, m) == Weight(Retained(rolls, now), step, m) + Weight(Expired(rolls, now), step, m)
  {
    hide Weigh, Keep;
    var all, kept := Weights(rolls, step, m), Weights(Retained(rolls, now), step, m);
    var lost := Weights(Expired(rolls, now), step, m);
    forall s | s in all ensures s in kept || s in lost {}
    assert kept.Keys + lost.Keys == all.Keys;
    forall k | k in kept ensures kept[k] == all[k] {}
    forall k | k in lost ensures lost[k] == all[k] {}
    MapSums.SumSplit(all, kept, lost);
  }
}
