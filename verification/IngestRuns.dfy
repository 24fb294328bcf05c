/** Whole histories of one host: any sequence of reports, replays, late samples,
    configuration changes and clean-ups, and what the tables hold after it. */
module IngestRuns {
  import opened Basics
  import opened Calendar
  import opened Traffic
  import opened Telemetry
  import opened Rollups
  import opened RollupTable
  import opened Ingest

  datatype Event =
    | Arrival(m: Sample, validated: int, now: int, cfg: Settings)
    | Cleanup(sweep: Sweep, now: int)

  /** The tables together with the history they no longer show: the reports counted,
      their contributions, the chain of latest samples, the rows deleted by retention
      and the bytes that apportioning could not allot. */
  datatype World = World(host: Host, counted: seq<Sample>, log: seq<Point>, chain: seq<Sample>,
                         clock: int, horizon: int, oldRolls: seq<Table>,
                         oldDays: seq<Rows>, oldMonths: seq<Rows>, leftDays: seq<Totals>, leftMonths: seq<Totals>)

  function Start(clock: int): World {
    World(FRESH, [], [], [], clock, clock, [], [], [], [], [])
  }

  ghost predicate ValidEvent(e: Event) {
    e.Arrival? ==> ValidReport(e.m, e.cfg)
  }

  predicate Counts(w: World, e: Event)
    requires ValidEvent(e)
  {
    e.Arrival? && Answer(w.host, e.m, e.validated, e.cfg) == Accepted(true)
  }

  /** Keeps what a statement of the clean-up deleted from `before`. */
  function Sweeping(w: World, before: Host, sweep: Sweep, now: int): World {
    match sweep
    case OldReceipts => w
    case OldRollups => w.(horizon := now, oldRolls := w.oldRolls + [Expired(before.rolls, now)])
    case OldPeriods => w.(oldDays := w.oldDays + [RowsGone(before.days, now)],
                      oldMonths := w.oldMonths + [RowsGone(before.months, now)])
  }

  function Step(w: World, e: Event): World
    requires ValidEvent(e)
  {
    match e
    case Cleanup(sweep, now) => Sweeping(w.(host := Swept(w.host, sweep, now), clock := now), w.host, sweep, now)
    case Arrival(m, validated, now, cfg) =>
      var next := w.(host := Report(w.host, m, validated, now, cfg), clock := now);
      if !Counts(w, e) then next
      else
        var latest := Derive(m, w.host.latest, cfg);
        next.(counted := w.counted + [m],
              log := w.log + [Point(m.at, Contribution(latest, cfg))],
              chain := if Ordered(w.host, m) then w.chain + [m] else w.chain,
              leftDays := w.leftDays + [Apportioned(w.host.days, Day, latest, w.host.latest, cfg).left],
              leftMonths := w.leftMonths + [Apportioned(w.host.months, Month, latest, w.host.latest, cfg).left])
  }

  ghost predicate AllValid(events: seq<Event>) {
    forall e :: e in events ==> ValidEvent(e)
  }

  ghost function Run(events: seq<Event>, start: int): World
    requires AllValid(events)
  {
    if |events| == 0 then Start(start) else Step(Run(events[..|events| - 1], start), events[|events| - 1])
  }

  /** A clock that never runs backwards, and at most `wait` between the validation
      of a report and its transaction. */
  ghost predicate Timely(events: seq<Event>, start: int, wait: int)
    requires AllValid(events)
  {
    |events| == 0 ||
    (var past, e := events[..|events| - 1], events[|events| - 1];
     && Timely(past, start, wait)
     && Run(past, start).clock <= e.now
     && (e.Arrival? ==> e.validated <= e.now <= e.validated + wait))
  }

  // ---- what is answered, and what is let in ----

  /** Some row that the report would be merged into would exceed its limits. */
  ghost predicate Overflows(h: Host, m: Sample, cfg: Settings)
    requires ValidBilling(cfg.zone, cfg.billingDay)
  {
    var l := Derive(m, h.latest, cfg);
    || (exists i :: 0 <= i < 3 && TooWide(MergeRollups(Get(h.rolls, SlotAt(m.at, i)), Contribution(l, cfg))))
    || (exists kind, k ::
         k in Apportioned(RowsOf(h, kind), kind, l, h.latest, cfg).rows
         && |Apportioned(RowsOf(h, kind), kind, l, h.latest, cfg).rows[k]| > 512)
  }

  predicate TooWide(r: Rollup) {
    |r.metrics| > 8192 || |r.traffic| > 512 || |r.checks| > 256
  }

  /** Exactly when a report is refused, and in which way; whatever is not counted changes
      nothing. */
  lemma AnswersExactly(h: Host, m: Sample, validated: int, now: int, cfg: Settings)
    requires ValidReport(m, cfg)
    ensures var reply := Answer(h, m, validated, cfg);
      var timely := validated - HOUR <= m.at <= validated + 30 * SECOND;
      var own := timely && !cfg.paused && m.agent == cfg.agent;
      var repeated := Id(m) in h.receipts || exists id :: id in h.receipts && h.receipts[id].second == m.at / SECOND;
      && (reply == Invalid <==> !timely)
      && (reply == Suspended <==> timely && cfg.paused)
      && (reply == Denied <==> timely && !cfg.paused && m.agent != cfg.agent)
      && (reply == Accepted(false) <==> own && repeated)
      && (reply == Failed <==> own && !repeated && Overflows(h, m, cfg))
      && (reply != Accepted(true) ==> Report(h, m, validated, now, cfg) == h)
      && (reply == Accepted(true) ==>
           var next := Report(h, m, validated, now, cfg);
           && next.latest == (if h.latest.Some? && m.at <= h.latest.value.sample.at then h.latest
                              else Some(Derive(m, h.latest, cfg)))
           && next.receipts == h.receipts[Id(m) := Receipt(m.at / SECOND, now)])
  {
    FitsUnlessOverflows(h, m, cfg);
    hide Fits, Overflows, ValidBilling, Derive, Contribution, Recorded, Apportioned;
  }

  lemma FitsUnlessOverflows(h: Host, m: Sample, cfg: Settings)
    requires ValidBilling(cfg.zone, cfg.billingDay)
    ensures Fits(h, m, cfg) <==> !Overflows(h, m, cfg)
  {
    hide Derive, Contribution, MergeRollups, Apportioned, ValidBilling;
    var l := Derive(m, h.latest, cfg);
    var days := Apportioned(h.days, Day, l, h.latest, cfg).rows;
    var months := Apportioned(h.months, Month, l, h.latest, cfg).rows;
    assert RowsOf(h, Day) == h.days && RowsOf(h, Month) == h.months;
    if !Bounded(days) { assert exists k :: k in days && |days[k]| > 512; }
    if !Bounded(months) { assert exists k :: k in months && |months[k]| > 512; }
  }

  /** The event let the sample in: in time, for its own binding, and not while paused. */
  predicate LetIn(e: Event, m: Sample) {
    && e.Arrival? && e.m == m && !e.cfg.paused && m.agent == e.cfg.agent
    && e.validated - HOUR <= m.at <= e.validated + 30 * SECOND
  }

  /** Over any run, whatever was counted was let in so. */
  lemma {:induction false} OnlyAdmittedReportsCount(events: seq<Event>, start: int, m: Sample)
    requires AllValid(events) && m in Run(events, start).counted
    ensures exists e :: e in events && LetIn(e, m)
  {
    var past, e := events[..|events| - 1], events[|events| - 1];
    var w := Run(past, start);
    CountedStep(w, e);
    hide Step;
    if m in w.counted {
      OnlyAdmittedReportsCount(past, start, m);
      var d :| d in past && LetIn(d, m);
      assert d in events;
    } else {
      AnswersExactly(w.host, e.m, e.validated, e.now, e.cfg);
      assert LetIn(e, m);
    }
  }

  lemma CountedStep(w: World, e: Event)
    requires ValidEvent(e)
    ensures Step(w, e).counted == if Counts(w, e) then w.counted + [e.m] else w.counted
  {
    hide Derive, Contribution, Apportioned, Answer, Ordered, Swept;
  }

  /** A complete clean-up deletes exactly what is too old: what it deletes was kept for two
      hours, for a day, 30 days or 180 days by resolution, and for 180 days. */
  lemma CleanupDeletesExactly(h: Host, times: seq<int>)
    requires |times| == 3 && forall s :: s in h.rolls ==> s.step in STEPS
    ensures var c := Cleaned(h, times);
      && c.latest == h.latest
      && (forall id :: id in c.receipts <==> id in h.receipts && times[0] - h.receipts[id].receivedAt <= 2 * HOUR)
      && (forall id :: id in c.receipts ==> c.receipts[id] == h.receipts[id])
      && (forall s :: s in c.rolls <==>
           s in h.rolls && times[1] - s.start <= (if s.step == 10 then 1 else if s.step == 60 then 30 else 180) * DAY)
      && (forall s :: s in c.rolls ==> c.rolls[s] == h.rolls[s])
      && (forall kind, k :: k in RowsOf(c, kind) <==> k in RowsOf(h, kind) && times[2] - k <= 180 * DAY)
      && (forall kind, k :: k in RowsOf(c, kind) ==> RowsOf(c, kind)[k] == RowsOf(h, kind)[k])
  {
    CleanedUnfolds(h, times);
    hide Cleaned;
  }

  // ---- the chain of latest samples ----

  ghost predicate Chained(w: World) {
    && Ascending(w.chain)
    && (w.host.latest.None? <==> |w.chain| == 0)
    && (w.host.latest.Some? ==> w.host.latest.value.sample == w.chain[|w.chain| - 1])
  }

  lemma StepStaysChained(w: World, e: Event)
    requires ValidEvent(e) && Chained(w)
    ensures Chained(Step(w, e))
  {
    hide Derive, Contribution, Apportioned, Answer, Recorded;
    if e.Arrival? && Counts(w, e) { DeriveKeepsSample(e.m, w.host.latest, e.cfg); }
  }

  // ---- rollups hold the counted reports ----

  ghost predicate RollupsExact(w: World) {
    && SoundTable(w.host.rolls) && SoundLog(w.log)
    && w.horizon <= w.clock
    && Exact(w.host.rolls, w.log, w.horizon)
  }

  lemma StepStaysExact(w: World, e: Event)
    requires ValidEvent(e) && RollupsExact(w) && w.clock <= e.now
    ensures RollupsExact(Step(w, e))
  {
    hide Derive, Contribution, Apportioned, Answer, Recorded, Exact, Sound, Ordered;
    if e.Cleanup? {
      RetentionStaysExact(w.host.rolls, w.log, w.horizon, e.now);
    } else if Counts(w, e) {
      var latest := Derive(e.m, w.host.latest, e.cfg);
      DerivedPeaksAreSound(e.m, w.host.latest, e.cfg);
      ContributionIsSound(latest, e.cfg);
      RecordingIsExact(w.host.rolls, w.log, w.horizon, Point(e.m.at, Contribution(latest, e.cfg)));
      RecordedIsSound(w.host.rolls, e.m.at, Contribution(latest, e.cfg));
    }
  }

  /** In every reachable state each retained row is the direct fold of the counted
      reports in its span. */
  lemma {:induction false} ReachableRollupsAreExact(events: seq<Event>, start: int, wait: int)
    requires AllValid(events) && Timely(events, start, wait)
    ensures RollupsExact(Run(events, start))
  {
    hide Step, Exact;
    if |events| == 0 {
      StartIsExact(start);
    } else {
      var past := events[..|events| - 1];
      ReachableRollupsAreExact(past, start, wait);
      StepStaysExact(Run(past, start), events[|events| - 1]);
    }
  }

  lemma StartIsExact(start: int)
    ensures RollupsExact(Start(start))
  {}

  /** Rollups of different resolution agree in every reachable state. */
  lemma ReachableResolutionsAgree(events: seq<Event>, start: int, wait: int, fine: nat, coarse: nat, at: int)
    requires AllValid(events) && Timely(events, start, wait)
    requires fine < coarse < 3 && at % (STEPS[coarse] * SECOND) == 0
    requires Live(at, fine, Run(events, start).horizon)
    ensures var rolls := Run(events, start).host.rolls;
      Get(rolls, Slot(STEPS[coarse], at)) == MergeRows(rolls, STEPS[fine], at, STEPS[coarse] / STEPS[fine])
  {
    hide Exact, MergeRows, Run, Get;
    ReachableRollupsAreExact(events, start, wait);
    var w := Run(events, start);
    ResolutionsAgree(w.host.rolls, w.log, w.horizon, fine, coarse, at);
  }

  // ---- traffic telescopes ----

  ghost function GoneRolls(tables: seq<Table>, step: nat, m: Measure): int {
    if |tables| == 0 then 0
    else GoneRolls(tables[..|tables| - 1], step, m) + Weight(tables[|tables| - 1], step, m)
  }

  ghost function GoneRows(tables: seq<Rows>, name: string, dir: Direction): int {
    if |tables| == 0 then 0
    else GoneRows(tables[..|tables| - 1], name, dir) + Total(tables[|tables| - 1], name, dir)
  }

  function Leftover(left: seq<Totals>, name: string, dir: Direction): nat {
    if |left| == 0 then 0
    else Leftover(left[..|left| - 1], name, dir) + Bytes(At(left[|left| - 1], name), dir)
  }

  function RowsOf(h: Host, kind: Kind): Rows {
    match kind case Day => h.days case Month => h.months
  }

  function OldRowsOf(w: World, kind: Kind): seq<Rows> {
    match kind case Day => w.oldDays case Month => w.oldMonths
  }

  function LeftOf(w: World, kind: Kind): seq<Totals> {
    match kind case Day => w.leftDays case Month => w.leftMonths
  }

  /** All bytes of an interface ever recorded at one resolution. */
  ghost function RolledUp(w: World, i: nat, m: Measure): int
    requires i < 3
  {
    Weight(w.host.rolls, STEPS[i], m) + GoneRolls(w.oldRolls, STEPS[i], m)
  }

  /** All bytes of an interface ever recorded in the periods of one kind. */
  ghost function Billed(w: World, kind: Kind, name: string, dir: Direction): int {
    Total(RowsOf(w.host, kind), name, dir) + GoneRows(OldRowsOf(w, kind), name, dir)
  }

  /** The delta that a counted report records for an interface. */
  function Gain(w: World, m: Sample, cfg: Settings, name: string, dir: Direction): nat {
    Bytes(At(Derive(m, w.host.latest, cfg).traffic, name), dir)
  }

  lemma GainTelescopes(w: World, m: Sample, cfg: Settings, name: string, dir: Direction)
    requires Chained(w)
    ensures StretchTotal(if Ordered(w.host, m) then w.chain + [m] else w.chain, name, dir)
         == StretchTotal(w.chain, name, dir) + Gain(w, m, cfg, name, dir)
  {
    hide Values, Deltas, Breaks, IsGap, StretchTotal, Counter;
    if Ordered(w.host, m) {
      if w.host.latest.Some? {
        StretchesTelescope(w.chain, m, w.host.latest.value, cfg, name, dir);
      } else {
        SingleStretch(m, name, dir);
        assert w.chain + [m] == [m];
      }
    }
  }

  lemma SingleStretch(m: Sample, name: string, dir: Direction)
    ensures StretchTotal([m], name, dir) == 0 == StretchTotal([], name, dir)
  {
    hide Contiguous, Counter;
    assert StretchStart([m], 0, name) == 0;
    assert [m][..0] == [];
  }

  lemma RolledUpStep(w: World, e: Event, i: nat, m: Measure)
    requires ValidEvent(e) && i < 3
    ensures RolledUp(Step(w, e), i, m) == RolledUp(w, i, m)
            + if Counts(w, e) then Weigh(Contribution(Derive(e.m, w.host.latest, e.cfg), e.cfg), m) else 0
  {
    hide Derive, Contribution, Apportioned, Answer, Recorded, Weight, Weigh, Ordered, Expired, Retained;
    if e.Cleanup? {
      RetentionWeighs(w.host.rolls, e.now, STEPS[i], m);
      var t := Expired(w.host.rolls, e.now);
      assert (w.oldRolls + [t])[..|w.oldRolls|] == w.oldRolls;
    } else if Counts(w, e) {
      RecordingWeighs(w.host.rolls, e.m.at, Contribution(Derive(e.m, w.host.latest, e.cfg), e.cfg), i, m);
    }
  }

  lemma SweepMovesRows(w: World, sweep: Sweep, now: int, kind: Kind, name: string, dir: Direction)
    ensures Billed(Step(w, Cleanup(sweep, now)), kind, name, dir) == Billed(w, kind, name, dir)
    ensures LeftOf(Step(w, Cleanup(sweep, now)), kind) == LeftOf(w, kind)
  {
    hide Total, RowsKept, RowsGone, Retained, Expired, ReceiptsKept;
    if sweep == OldPeriods {
      RowsSplit(RowsOf(w.host, kind), now, name, dir);
      var gone := OldRowsOf(w, kind);
      assert (gone + [RowsGone(RowsOf(w.host, kind), now)])[..|gone|] == gone;
    }
  }

  lemma BilledStep(w: World, e: Event, kind: Kind, name: string, dir: Direction)
    requires ValidEvent(e)
    ensures Billed(Step(w, e), kind, name, dir) + Leftover(LeftOf(Step(w, e), kind), name, dir)
         == Billed(w, kind, name, dir) + Leftover(LeftOf(w, kind), name, dir)
            + if Counts(w, e) then Gain(w, e.m, e.cfg, name, dir) else 0
  {
    hide Derive, Contribution, Apportioned, Answer, Recorded, Total, Ordered, RowsKept, RowsGone;
    if e.Cleanup? {
      SweepMovesRows(w, e.sweep, e.now, kind, name, dir);
    } else if Counts(w, e) {
      var latest := Derive(e.m, w.host.latest, e.cfg);
      AllottedOrLeft(w, e.m, e.cfg, kind, name, dir);
      var left := LeftOf(w, kind);
      assert (left + [Apportioned(RowsOf(w.host, kind), kind, latest, w.host.latest, e.cfg).left])[..|left|] == left;
    }
  }

  /** Whether a report's delta can be allotted in full. */
  ghost predicate Allottable(w: World, m: Sample, cfg: Settings, kind: Kind, name: string, dir: Direction)
    requires ValidBilling(cfg.zone, cfg.billingDay)
  {
    || Gain(w, m, cfg, name, dir) == 0
    || w.host.latest.None?
    || Crossed(cfg.zone, cfg.billingDay, kind, w.host.latest.value.sample.at, m.at) <= MAX_PERIODS
  }

  lemma AllottedOrLeft(w: World, m: Sample, cfg: Settings, kind: Kind, name: string, dir: Direction)
    requires ValidBilling(cfg.zone, cfg.billingDay)
    ensures var rows := RowsOf(w.host, kind);
      var a := Apportioned(rows, kind, Derive(m, w.host.latest, cfg), w.host.latest, cfg);
      && Total(a.rows, name, dir) + Bytes(At(a.left, name), dir) == Total(rows, name, dir) + Gain(w, m, cfg, name, dir)
      && (Bytes(At(a.left, name), dir) == 0 <==> Allottable(w, m, cfg, kind, name, dir))
  {
    hide Values, Deltas, Breaks, IsGap, Total, Apportion, Crossed;
    DeriveKeepsSample(m, w.host.latest, cfg);
    if w.host.latest.Some? && w.host.latest.value.sample.at < m.at {
      var latest := Derive(m, w.host.latest, cfg);
      ApportionTotals(cfg.zone, cfg.billingDay, kind, latest.traffic, w.host.latest.value.sample.at, m.at,
                      RowsOf(w.host, kind), name, dir);
    }
  }

  /** Every counted report of the run could be allotted in full. */
  ghost predicate AlwaysAllottable(events: seq<Event>, start: int, kind: Kind, name: string, dir: Direction)
    requires AllValid(events)
  {
    |events| == 0 ||
    (var past, e := events[..|events| - 1], events[|events| - 1];
     && AlwaysAllottable(past, start, kind, name, dir)
     && (Counts(Run(past, start), e) ==> Allottable(Run(past, start), e.m, e.cfg, kind, name, dir)))
  }

  lemma LeftoverStep(w: World, e: Event, kind: Kind, name: string, dir: Direction)
    requires ValidEvent(e)
    ensures Leftover(LeftOf(Step(w, e), kind), name, dir) == 0
      <==> Leftover(LeftOf(w, kind), name, dir) == 0 && (Counts(w, e) ==> Allottable(w, e.m, e.cfg, kind, name, dir))
  {
    hide Derive, Contribution, Apportioned, Answer, Recorded, Total, Ordered, Allottable;
    if Counts(w, e) {
      AllottedOrLeft(w, e.m, e.cfg, kind, name, dir);
      var left := LeftOf(w, kind);
      var more := Apportioned(RowsOf(w.host, kind), kind, Derive(e.m, w.host.latest, e.cfg), w.host.latest, e.cfg).left;
      assert (left + [more])[..|left|] == left;
    }
  }

  /** Traffic telescopes end to end. Over any run with duplicates, reordering,
      replays and retention, what was recorded for an interface at each rollup
      resolution is the sum of last minus first counter over the maximal stretches
      of latest samples free of reboot, re-index, disappearance or decrease; the
      daily and monthly tables record the same, except for what apportioning left,
      which is nothing exactly when every counted gap could be allotted. */
  lemma {:induction false} TrafficTelescopes(events: seq<Event>, start: int, name: string, dir: Direction)
    requires AllValid(events)
    ensures var w := Run(events, start);
      && Chained(w)
      && (forall i: nat :: i < 3 ==> RolledUp(w, i, Volume(name, dir)) == StretchTotal(w.chain, name, dir))
      && (forall kind ::
           Billed(w, kind, name, dir) + Leftover(LeftOf(w, kind), name, dir) == StretchTotal(w.chain, name, dir))
      && (forall kind ::
           Leftover(LeftOf(w, kind), name, dir) == 0 <==> AlwaysAllottable(events, start, kind, name, dir))
  {
    hide Step, RolledUp, Billed, StretchTotal, Leftover, LeftOf, Allottable, Counts, Chained, Gain;
    if |events| == 0 {
      StartIsBlank(start, name, dir);
    } else {
      var past, e := events[..|events| - 1], events[|events| - 1];
      TrafficTelescopes(past, start, name, dir);
      var w := Run(past, start);
      StepStaysChained(w, e);
      StepTelescopes(w, e, name, dir);
      forall kind
        ensures Leftover(LeftOf(Step(w, e), kind), name, dir) == 0 <==> AlwaysAllottable(events, start, kind, name, dir)
      {
        LeftoverStep(w, e, kind, name, dir);
      }
    }
  }

  lemma ChainStep(w: World, e: Event)
    requires ValidEvent(e)
    ensures Step(w, e).chain == if Counts(w, e) && Ordered(w.host, e.m) then w.chain + [e.m] else w.chain
    ensures Counts(w, e) ==> e.Arrival?
  {
    hide Derive, Contribution, Apportioned, Answer, Ordered, Swept;
  }

  lemma GainIsWeight(w: World, m: Sample, cfg: Settings, name: string, dir: Direction)
    ensures Gain(w, m, cfg, name, dir) == Weigh(Contribution(Derive(m, w.host.latest, cfg), cfg), Volume(name, dir))
  {
    hide Derive, CheckFold;
  }

  lemma StepTelescopes(w: World, e: Event, name: string, dir: Direction)
    requires ValidEvent(e) && Chained(w)
    requires forall i: nat :: i < 3 ==> RolledUp(w, i, Volume(name, dir)) == StretchTotal(w.chain, name, dir)
    requires forall kind ::
      Billed(w, kind, name, dir) + Leftover(LeftOf(w, kind), name, dir) == StretchTotal(w.chain, name, dir)
    ensures var v := Step(w, e);
      && (forall i: nat :: i < 3 ==> RolledUp(v, i, Volume(name, dir)) == StretchTotal(v.chain, name, dir))
      && (forall kind ::
           Billed(v, kind, name, dir) + Leftover(LeftOf(v, kind), name, dir) == StretchTotal(v.chain, name, dir))
  {
    hide Step, RolledUp, Billed, StretchTotal, Leftover, LeftOf, Derive, Counts, Chained, Ordered, Gain;
    var v := Step(w, e);
    ChainStep(w, e);
    if Counts(w, e) {
      GainTelescopes(w, e.m, e.cfg, name, dir);
      GainIsWeight(w, e.m, e.cfg, name, dir);
    }
    forall i: nat | i < 3 ensures RolledUp(v, i, Volume(name, dir)) == StretchTotal(v.chain, name, dir) {
      RolledUpStep(w, e, i, Volume(name, dir));
    }
    forall kind
      ensures Billed(v, kind, name, dir) + Leftover(LeftOf(v, kind), name, dir) == StretchTotal(v.chain, name, dir)
    {
      BilledStep(w, e, kind, name, dir);
    }
  }

  lemma StartIsBlank(start: int, name: string, dir: Direction)
    ensures var w := Start(start);
      && Chained(w) && StretchTotal(w.chain, name, dir) == 0
      && (forall i: nat :: i < 3 ==> RolledUp(w, i, Volume(name, dir)) == 0)
      && (forall kind :: Billed(w, kind, name, dir) == 0 && Leftover(LeftOf(w, kind), name, dir) == 0)
  {}
}
