/** The server side of reporting for one host: deduplication, derivation, the three
    rollups, the two traffic tables and the latest sample, each in one transaction. */
module Ingest {
  import opened Basics
  import opened Calendar
  import opened Traffic
  import opened Telemetry
  import opened Rollups
  import opened RollupTable

  /** A deduplication row: the sampled second and the time of its transaction. */
  datatype Receipt = Receipt(second: int, receivedAt: int)
  type Receipts = map<(string, nat), Receipt>

  datatype Host = Host(receipts: Receipts, latest: Option<Latest>, rolls: Table, days: Rows, months: Rows)

  datatype Reply = Invalid | Denied | Suspended | Failed | Accepted(counted: bool)

  const FRESH := Host(map[], None, map[], map[], map[])

  /** The time window of validation. */
  predicate InWindow(at: int, now: int) {
    now - HOUR <= at <= now + 30 * SECOND
  }

  function Id(m: Sample): (string, nat) {
    (m.session, m.sequence)
  }

  /** Either unique key of the deduplication table is taken. */
  predicate Taken(receipts: Receipts, m: Sample) {
    Id(m) in receipts || exists id :: id in receipts && receipts[id].second == m.at / SECOND
  }

  predicate Ordered(h: Host, m: Sample) {
    h.latest.None? || h.latest.value.sample.at < m.at
  }

  ghost predicate ValidReport(m: Sample, cfg: Settings) {
    ValidBilling(cfg.zone, cfg.billingDay) && DistinctNames(m.network)
  }

  function Apportioned(rows: Rows, kind: Kind, latest: Latest, previous: Option<Latest>, cfg: Settings): Allocation
    requires ValidBilling(cfg.zone, cfg.billingDay)
  {
    if previous.None? || latest.sample.at <= previous.value.sample.at then Allocation(rows, map[])
    else Apportion(cfg.zone, cfg.billingDay, kind, latest.traffic, previous.value.sample.at, latest.sample.at, rows)
  }

  /** The rows after a counted report. */
  function Counted(h: Host, m: Sample, now: int, cfg: Settings): Host
    requires ValidBilling(cfg.zone, cfg.billingDay)
  {
    var latest := Derive(m, h.latest, cfg);
    Host(h.receipts[Id(m) := Receipt(m.at / SECOND, now)],
         if Ordered(h, m) then Some(latest) else h.latest,
         Recorded(h.rolls, m.at, Contribution(latest, cfg)),
         Apportioned(h.days, Day, latest, h.latest, cfg).rows,
         Apportioned(h.months, Month, latest, h.latest, cfg).rows)
  }

  predicate Fits(h: Host, m: Sample, cfg: Settings)
    requires ValidBilling(cfg.zone, cfg.billingDay)
  {
    var latest := Derive(m, h.latest, cfg);
    && Recordable(h.rolls, m.at, Contribution(latest, cfg))
    && Bounded(Apportioned(h.days, Day, latest, h.latest, cfg).rows)
    && Bounded(Apportioned(h.months, Month, latest, h.latest, cfg).rows)
  }

  function Answer(h: Host, m: Sample, validated: int, cfg: Settings): Reply
    requires ValidBilling(cfg.zone, cfg.billingDay)
  {
    if !InWindow(m.at, validated) then Invalid
    else if cfg.paused then Suspended
    else if m.agent != cfg.agent then Denied
    else if Taken(h.receipts, m) then Accepted(false)
    else if !Fits(h, m, cfg) then Failed
    else Accepted(true)
  }

  function Report(h: Host, m: Sample, validated: int, now: int, cfg: Settings): Host
    requires ValidBilling(cfg.zone, cfg.billingDay)
  {
    if Answer(h, m, validated, cfg) == Accepted(true) then Counted(h, m, now, cfg) else h
  }

  // ---- retention ----

  const DEDUP_KEEP := 2 * HOUR
  const TRAFFIC_KEEP := 180 * DAY

  function ReceiptsKept(receipts: Receipts, now: int): Receipts {
    map id | id in receipts && now - DEDUP_KEEP <= receipts[id].receivedAt :: receipts[id]
  }

  function RowsKept(rows: Rows, now: int): Rows {
    map k | k in rows && now - TRAFFIC_KEEP <= k :: rows[k]
  }

  function RowsGone(rows: Rows, now: int): Rows {
    map k | k in rows && k < now - TRAFFIC_KEEP :: rows[k]
  }

  /** The clean-up is three statements, in this order, each with a clock of its own. */
  datatype Sweep = OldReceipts | OldRollups | OldPeriods

  const SWEEPS := [OldReceipts, OldRollups, OldPeriods]

  function Swept(h: Host, sweep: Sweep, now: int): Host {
    match sweep
    case OldReceipts => h.(receipts := ReceiptsKept(h.receipts, now))
    case OldRollups => h.(rolls := Retained(h.rolls, now))
    case OldPeriods => h.(days := RowsKept(h.days, now), months := RowsKept(h.months, now))
  }

  /** A clean-up whose first |times| statements succeeded, at those times. */
  function Cleaned(h: Host, times: seq<int>): Host
    requires |times| <= |SWEEPS|
  {
    if |times| == 0 then h
    else
      var n := |times| - 1;
      Swept(Cleaned(h, times[..n]), SWEEPS[n], times[n])
  }

  lemma CleanedUnfolds(h: Host, times: seq<int>)
    requires |times| <= |SWEEPS|
    ensures |times| == 1 ==> Cleaned(h, times) == Swept(h, OldReceipts, times[0])
    ensures |times| == 2 ==> Cleaned(h, times) == Swept(Swept(h, OldReceipts, times[0]), OldRollups, times[1])
    ensures |times| == 3 ==>
      Cleaned(h, times) == Swept(Swept(Swept(h, OldReceipts, times[0]), OldRollups, times[1]), OldPeriods, times[2])
  {
    hide Swept;
    if |times| > 0 {
      var most := times[..|times| - 1];
      CleanedUnfolds(h, most);
      assert |times| == 1 ==> Cleaned(h, most) == h;
    }
  }

  lemma RowsSplit(rows: Rows, now: int, name: string, dir: Direction)
    ensures Total(rows, name, dir) == Total(RowsKept(rows, now), name, dir) + Total(RowsGone(rows, now), name, dir)
  {
    TotalSplits(rows, RowsKept(rows, now), RowsGone(rows, now), name, dir);
  }

  // ---- the tables as the source updates them ----

  lemma DerivedPeaksAreSound(m: Sample, previous: Option<Latest>, cfg: Settings)
    ensures AllOf(Derive(m, previous, cfg).traffic, SoundTraffic)
  {
    hide Values, IsGap, ByName, Breaks;
    if previous.Some? && previous.value.sample.at < m.at {
      var dt := m.at - previous.value.sample.at;
      forall bytes: nat ensures PerSecond(bytes, dt) >= 0.0 { RateIsNonNegative(bytes, dt); }
    }
  }

  lemma RateIsNonNegative(bytes: nat, dt: int)
    requires dt > 0
    ensures PerSecond(bytes, dt) >= 0.0
  {
    var b, d := bytes as real * SECOND as real, dt as real;
    assert b >= 0.0 && d > 0.0 && b / d * d == b;
  }

  class MonitorStore {
    var receipts: Receipts
    var latest: Option<Latest>
    var rolls: Table
    var days: Rows
    var months: Rows

    ghost function State(): Host
      reads this
    {
      Host(receipts, latest, rolls, days, months)
    }

    ghost predicate Valid()
      reads this
    {
      SoundTable(rolls) && Bounded(days) && Bounded(months)
    }

    constructor ()
      ensures Valid() && State() == FRESH
    {
      receipts, latest, rolls, days, months := map[], None, map[], map[], map[];
    }

    /** One report, handled in one transaction: a failure leaves every table as it was. */
    method Ingest(m: Sample, validated: int, now: int, cfg: Settings) returns (reply: Reply)
      requires Valid() && ValidReport(m, cfg)
      modifies this
      ensures Valid()
      ensures reply == Answer(old(State()), m, validated, cfg)
      ensures State() == Report(old(State()), m, validated, now, cfg)
    {
      hide Derive, Contribution, Recorded, Recordable, Apportion, Sound, Bounded, DistinctNames;
      if !InWindow(m.at, validated) { return Invalid; }
      if cfg.paused { return Suspended; }
      if m.agent != cfg.agent { return Denied; }
      if Taken(receipts, m) { return Accepted(false); }
      var derived := DeriveMetrics(m, latest, cfg);
      assert derived.sample == m by { DeriveKeepsSample(m, latest, cfg); }
      DerivedPeaksAreSound(m, latest, cfg);
      ContributionIsSound(derived, cfg);
      var ok, rows := PersistMonitor(rolls, derived, cfg);
      if !ok { return Failed; }
      RecordedIsSound(rolls, m.at, Contribution(derived, cfg));
      var d, n := days, months;
      if latest.Some? && latest.value.sample.at < m.at {
        var from := latest.value.sample.at;
        ok, d := PersistTraffic(cfg.zone, cfg.billingDay, Day, derived.traffic, from, m.at, days);
        if !ok { return Failed; }
        ok, n := PersistTraffic(cfg.zone, cfg.billingDay, Month, derived.traffic, from, m.at, months);
        if !ok { return Failed; }
      }
      if latest.None? || latest.value.sample.at < m.at { latest := Some(derived); }
      receipts := receipts[Id(m) := Receipt(m.at / SECOND, now)];
      rolls, days, months := rows, d, n;
      return Accepted(true);
    }

    /** Hourly clean-up, which stops at the first statement that fails: `times` are the
        times of those that succeeded. */
    method Maintain(times: seq<int>)
      requires Valid() && |times| <= |SWEEPS|
      modifies this
      ensures Valid() && State() == Cleaned(old(State()), times)
    {
      CleanedUnfolds(State(), times);
      if |times| == 0 { return; }
      receipts := ReceiptsKept(receipts, times[0]);
      if |times| == 1 { return; }
      rolls := Retained(rolls, times[1]);
      if |times| == 2 { return; }
      days := RowsKept(days, times[2]);
      months := RowsKept(months, times[2]);
    }
  }

  lemma DeriveKeepsSample(m: Sample, previous: Option<Latest>, cfg: Settings)
    ensures Derive(m, previous, cfg).sample == m
  {
    hide Values, Deltas, Breaks, IsGap;
  }

  lemma RecordedIsSound(rolls: Table, at: int, c: Rollup)
    requires SoundTable(rolls) && Sound(c)
    ensures SoundTable(Recorded(rolls, at, c))
  {
    hide MergeRollups, Sound, Truncate;
    EmptyIsSound();
    PutIsSound(rolls, SlotAt(at, 0), c);
    PutIsSound(RecordedUpTo(rolls, at, c, 1), SlotAt(at, 1), c);
    PutIsSound(RecordedUpTo(rolls, at, c, 2), SlotAt(at, 2), c);
    assert RecordedUpTo(rolls, at, c, 0) == rolls;
  }

  lemma PutIsSound(rolls: Table, slot: Slot, c: Rollup)
    requires Sound(c)
    ensures SoundTable(rolls) ==> SoundTable(Put(rolls, slot, c))
  {
    hide MergeRollups, Sound;
    EmptyIsSound();
    if SoundTable(rolls) { MergeCloses(Get(rolls, slot), c); }
  }
}
