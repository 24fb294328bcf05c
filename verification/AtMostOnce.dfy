/** Deduplication over whole runs: a report is counted at most once, although the
    agent sends it at least once and deduplication rows are deleted after two hours. */
module AtMostOnce {
  import opened Basics
  import opened Calendar
  import opened Traffic
  import opened Telemetry
  import opened Rollups
  import opened RollupTable
  import opened Ingest
  import opened IngestRuns

  /** What the retention of deduplication rows leaves beyond the acceptance window. */
  const SLACK := DEDUP_KEEP - HOUR - 30 * SECOND

  ghost predicate NoRepeats(counted: seq<Sample>) {
    forall i, j :: 0 <= i < j < |counted| ==> counted[i] != counted[j]
  }

  /** The deduplication row of a counted report exists, or any replay of it would by
      now be outside the acceptance window. */
  predicate Guarded(w: World, m: Sample) {
    || (Id(m) in w.host.receipts && m.at - 30 * SECOND <= w.host.receipts[Id(m)].receivedAt)
    || m.at + DEDUP_KEEP - 30 * SECOND < w.clock
  }

  ghost predicate AllGuarded(w: World) {
    NoRepeats(w.counted) && forall m :: m in w.counted ==> Guarded(w, m)
  }

  lemma StepStaysGuarded(w: World, e: Event)
    requires ValidEvent(e) && AllGuarded(w) && w.clock <= e.now
    requires e.Arrival? ==> e.validated <= e.now <= e.validated + SLACK
    ensures AllGuarded(Step(w, e))
    ensures Counts(w, e) ==> e.m !in w.counted
  {
    hide Derive, Contribution, Apportioned, Recorded, Fits, Ordered, Retained, RowsKept;
    var v := Step(w, e);
    assert e.Arrival? && e.m in w.counted ==> Guarded(w, e.m);
    forall m | m in v.counted ensures Guarded(v, m) {
      if m in w.counted { assert Guarded(w, m); }
    }
  }

  /** In any run whose waits stay within the slack, no report is counted twice. */
  lemma {:induction false} CountedAtMostOnce(events: seq<Event>, start: int)
    requires AllValid(events) && Timely(events, start, SLACK)
    ensures AllGuarded(Run(events, start))
  {
    hide Step, Guarded;
    if |events| > 0 {
      var past := events[..|events| - 1];
      CountedAtMostOnce(past, start);
      StepStaysGuarded(Run(past, start), events[|events| - 1]);
    }
  }

  /** A replay of a counted report changes no table. */
  lemma ReplayChangesNothing(events: seq<Event>, start: int, e: Event)
    requires AllValid(events) && Timely(events, start, SLACK)
    requires ValidEvent(e) && e.Arrival? && e.m in Run(events, start).counted
    requires Run(events, start).clock <= e.now && e.validated <= e.now <= e.validated + SLACK
    ensures var w := Run(events, start);
      Step(w, e).host == w.host && Step(w, e).counted == w.counted
  {
    hide Guarded, Run, Answer;
    CountedAtMostOnce(events, start);
    StepStaysGuarded(Run(events, start), e);
  }

  /** Every deduplication row was left by a counted report. */
  ghost predicate Traceable(w: World) {
    forall id :: id in w.host.receipts ==>
      exists m :: m in w.counted && Id(m) == id && m.at / SECOND == w.host.receipts[id].second
  }

  lemma StepStaysTraceable(w: World, e: Event)
    requires ValidEvent(e) && Traceable(w)
    ensures Traceable(Step(w, e))
  {
    hide Derive, Contribution, Apportioned, Recorded, Answer, Ordered, Retained, RowsKept;
    var v := Step(w, e);
    forall id | id in v.host.receipts
      ensures exists m :: m in v.counted && Id(m) == id && m.at / SECOND == v.host.receipts[id].second
    {
      if id in w.host.receipts && v.host.receipts[id] == w.host.receipts[id] {
        var m :| m in w.counted && Id(m) == id && m.at / SECOND == w.host.receipts[id].second;
        assert m in v.counted;
      } else {
        assert Counts(w, e) && e.m in v.counted;
      }
    }
  }

  lemma {:induction false} ReachableIsTraceable(events: seq<Event>, start: int)
    requires AllValid(events)
    ensures Traceable(Run(events, start))
  {
    hide Step;
    if |events| > 0 {
      ReachableIsTraceable(events[..|events| - 1], start);
      StepStaysTraceable(Run(events[..|events| - 1], start), events[|events| - 1]);
    }
  }

  /** The same identity, or the same second. */
  predicate Collides(a: Sample, b: Sample) {
    Id(a) == Id(b) || a.at / SECOND == b.at / SECOND
  }

  /** The deduplication row of a counted report is still there. */
  predicate Remembered(w: World, m: Sample) {
    Id(m) in w.host.receipts && w.host.receipts[Id(m)].second == m.at / SECOND
  }

  /** What an acknowledgement means: a report with the same identity or from the same
      second has been counted. It is not the report itself exactly when an earlier one
      that is still remembered collides with it. */
  lemma AcknowledgementMeans(events: seq<Event>, start: int, e: Event)
    requires AllValid(events) && ValidEvent(e) && e.Arrival?
    requires Answer(Run(events, start).host, e.m, e.validated, e.cfg).Accepted?
    ensures var w := Run(events, start);
      && (exists m :: m in Step(w, e).counted && Collides(m, e.m))
      && (!Counts(w, e) <==> exists m :: m in w.counted && Remembered(w, m) && Collides(m, e.m))
  {
    hide Run, Derive, Contribution, Apportioned, Recorded, Fits, Ordered;
    ReachableIsTraceable(events, start);
    var w := Run(events, start);
    if Counts(w, e) {
      assert e.m in Step(w, e).counted;
    } else {
      var id :| id in w.host.receipts && (id == Id(e.m) || w.host.receipts[id].second == e.m.at / SECOND);
      var m :| m in w.counted && Id(m) == id && m.at / SECOND == w.host.receipts[id].second;
      assert m in Step(w, e).counted && Remembered(w, m) && Collides(m, e.m);
    }
  }

  /** Each resolution counts every counted report once. */
  lemma {:induction false} EveryResolutionCountsAll(events: seq<Event>, start: int, i: nat)
    requires AllValid(events) && i < 3
    ensures RolledUp(Run(events, start), i, Reports) == |Run(events, start).counted|
  {
    if |events| > 0 {
      var past, e := events[..|events| - 1], events[|events| - 1];
      EveryResolutionCountsAll(past, start, i);
      var w := Run(past, start);
      RolledUpStep(w, e, i, Reports);
      assert |Step(w, e).counted| == |w.counted| + if Counts(w, e) then 1 else 0 by {
        hide Derive, Contribution, Apportioned, Recorded, Answer, Ordered, Swept;
      }
      hide RolledUp, Step, Counts, Derive, CheckFold;
    }
  }

  // ---- the slack is exact ----

  const BLANK := Sample("agent", "boot", "s", 1, 0, map[], [], [], [])
  const PLAIN := Settings("agent", 1, [], [], {}, false, FixedOffset(0), 1)

  /** A replay validated in time whose transaction starts too late. */
  function SlowReplay(): seq<Event> {
    var late := DEDUP_KEEP - 30 * SECOND + 1;
    [Arrival(BLANK, -30 * SECOND, -30 * SECOND, PLAIN), Cleanup(OldReceipts, late), Arrival(BLANK, HOUR, late, PLAIN)]
  }

  ghost predicate NoEntries(rolls: Table) {
    forall s :: s in rolls ==> NoDimensions(rolls[s])
  }

  ghost predicate NoDimensions(r: Rollup) {
    r.metrics == map[] && r.traffic == map[] && r.checks == map[]
  }

  lemma BlankIsRecorded(rolls: Table, c: Rollup)
    requires NoEntries(rolls) && NoDimensions(c)
    ensures NoEntries(Recorded(rolls, 0, c)) && Recordable(rolls, 0, c)
  {
    hide Truncate;
    forall s ensures NoDimensions(MergeRollups(Get(rolls, s), c)) { BlankMerge(Get(rolls, s), c); }
    hide MergeRollups;
    forall i: nat | i < 3 ensures WithinLimits(MergeRollups(Get(rolls, SlotAt(0, i)), c)) {
      assert NoDimensions(MergeRollups(Get(rolls, SlotAt(0, i)), c));
    }
    var after := Recorded(rolls, 0, c);
    forall s | s in after ensures NoDimensions(after[s]) { RecordedRow(rolls, 0, c, 3, s); }
  }

  lemma BlankDerives(latest: Option<Latest>)
    requires latest.None? || latest.value.sample == BLANK
    ensures ValidReport(BLANK, PLAIN)
    ensures Derive(BLANK, latest, PLAIN) == Latest(BLANK, map[], map[], false, false)
    ensures NoDimensions(Contribution(Derive(BLANK, latest, PLAIN), PLAIN))
  {
    FixedOffsetIsRegular(0);
  }

  ghost predicate BlankHost(h: Host) {
    && NoEntries(h.rolls) && h.days == map[] && h.months == map[]
    && (h.latest.None? || h.latest.value.sample == BLANK)
  }

  lemma BlankIsAnswered(h: Host, validated: int)
    requires BlankHost(h) && h.receipts == map[] && InWindow(0, validated)
    ensures ValidReport(BLANK, PLAIN) && Answer(h, BLANK, validated, PLAIN) == Accepted(true)
  {
    BlankDerives(h.latest);
    BlankIsRecorded(h.rolls, Contribution(Derive(BLANK, h.latest, PLAIN), PLAIN));
    BlankAllotsNothing(h.latest, h.days, Day);
    BlankAllotsNothing(h.latest, h.months, Month);
    AcceptedWhen(h, BLANK, validated, PLAIN);
  }

  lemma AcceptedWhen(h: Host, m: Sample, validated: int, cfg: Settings)
    requires ValidBilling(cfg.zone, cfg.billingDay)
    requires InWindow(m.at, validated) && !cfg.paused && m.agent == cfg.agent && h.receipts == map[]
    requires Recordable(h.rolls, m.at, Contribution(Derive(m, h.latest, cfg), cfg))
    requires Apportioned(h.days, Day, Derive(m, h.latest, cfg), h.latest, cfg).rows == map[]
    requires Apportioned(h.months, Month, Derive(m, h.latest, cfg), h.latest, cfg).rows == map[]
    ensures Answer(h, m, validated, cfg) == Accepted(true)
  {
    EmptyIsBounded();
    hide Derive, Contribution, Recordable, InWindow, Apportioned, ValidBilling, Bounded;
  }

  lemma BlankIsCounted(h: Host, now: int)
    requires BlankHost(h) && h.receipts == map[]
    ensures ValidReport(BLANK, PLAIN)
    ensures BlankHost(Counted(h, BLANK, now, PLAIN))
    ensures Counted(h, BLANK, now, PLAIN).receipts == map[("s", 1) := Receipt(0, now)]
  {
    BlankDerives(h.latest);
    BlankIsRecorded(h.rolls, Contribution(Derive(BLANK, h.latest, PLAIN), PLAIN));
    BlankAllotsNothing(h.latest, h.days, Day);
    BlankAllotsNothing(h.latest, h.months, Month);
    DeriveKeepsSample(BLANK, h.latest, PLAIN);
    hide Derive, Contribution, Recorded, Recordable, Apportioned, ValidBilling, NoEntries, Bounded;
  }

  lemma EmptyIsBounded()
    ensures Bounded(map[])
  {}

  lemma BlankAllotsNothing(latest: Option<Latest>, rows: Rows, kind: Kind)
    requires latest.None? || latest.value.sample == BLANK
    ensures ValidReport(BLANK, PLAIN)
    ensures Apportioned(rows, kind, Derive(BLANK, latest, PLAIN), latest, PLAIN).rows == rows
  {
    BlankDerives(latest);
    hide Derive, Apportion, ValidBilling;
  }

  lemma BlankMerge(r: Rollup, c: Rollup)
    requires r.metrics == map[] == c.metrics && r.traffic == map[] == c.traffic && r.checks == map[] == c.checks
    ensures MergeRollups(r, c).metrics
        == map[] && MergeRollups(r, c).traffic == map[] && MergeRollups(r, c).checks == map[]
  {}

  /** The slack cannot be extended: with waits of one nanosecond more, the same
      report is counted twice. */
  lemma SlowIngestRepeats()
    ensures AllValid(SlowReplay()) && Timely(SlowReplay(), -30 * SECOND, SLACK + 1)
    ensures !NoRepeats(Run(SlowReplay(), -30 * SECOND).counted)
  {
    hide Answer, Counted, InWindow, Derive, Apportioned, Contribution;
    var events, s := SlowReplay(), -30 * SECOND;
    var w0 := Start(s);
    assert InWindow(0, s) && InWindow(0, HOUR) by { WindowEdges(); }
    BlankIsAnswered(w0.host, s);
    BlankIsCounted(w0.host, s);
    var w1 := Step(w0, events[0]);
    var w2 := Step(w1, events[1]);
    assert w2.host.receipts == map[];
    assert BlankHost(w2.host);
    BlankIsAnswered(w2.host, HOUR);
    BlankIsCounted(w2.host, events[2].now);
    var w3 := Step(w2, events[2]);
    assert w3.counted == [BLANK, BLANK];
    assert w3.counted[0] == w3.counted[1];
    Unroll(events, s);
    TimelyUnroll(events, s);
  }

  lemma WindowEdges()
    ensures InWindow(0, -30 * SECOND) && InWindow(0, HOUR)
  {}

  lemma Unroll(events: seq<Event>, start: int)
    requires |events| == 3 && ValidEvent(events[0]) && ValidEvent(events[1]) && ValidEvent(events[2])
    ensures AllValid(events)
    ensures Run(events, start) == Step(Step(Step(Start(start), events[0]), events[1]), events[2])
    ensures Run(events[..1], start) == Step(Start(start), events[0])
    ensures Run(events[..2], start) == Step(Step(Start(start), events[0]), events[1])
  {
    hide Step;
    assert events[..2][..1] == events[..1];
    assert events[..1][..0] == [];
    assert Run(events[..1][..0], start) == Start(start);
    assert Run(events[..2][..1], start) == Run(events[..1], start);
  }

  lemma TimelyUnroll(events: seq<Event>, start: int)
    requires events == SlowReplay() && start == -30 * SECOND && AllValid(events)
    ensures Timely(events, start, SLACK + 1)
  {
    Unroll(events, start);
    hide Run, Report, Swept, Counts, ValidEvent, Ordered, Derive, Apportioned, Contribution;
    var w := SLACK + 1;
    assert events[..2][..1] == events[..1];
    assert events[..1][..0] == [];
    assert Run(events[..0], start).clock == start by { StartClock(start); }
    assert Timely(events[..1][..0], start, w);
    assert Timely(events[..1], start, w);
    assert Timely(events[..2], start, w);
  }

  lemma StartClock(start: int)
    ensures Run([], start).clock == start
  {}

  lemma {:induction false} TimelyWithin(events: seq<Event>, start: int, wait: int, more: int)
    requires AllValid(events) && Timely(events, start, wait) && wait <= more
    ensures Timely(events, start, more)
  {
    hide Run;
    if |events| > 0 { TimelyWithin(events[..|events| - 1], start, wait, more); }
  }

  /** Both halves: a bound on the wait between validation and storage makes every run
      count each report at most once if and only if it is within the slack. */
  lemma SlackIsExact(wait: int)
    ensures wait <= SLACK <==>
      forall events, start :: AllValid(events) && Timely(events, start, wait) ==> NoRepeats(Run(events, start).counted)
  {
    hide Run, Timely, NoRepeats;
    if wait <= SLACK {
      forall events, start | AllValid(events) && Timely(events, start, wait)
        ensures NoRepeats(Run(events, start).counted)
      {
        TimelyWithin(events, start, wait, SLACK);
        CountedAtMostOnce(events, start);
      }
    } else {
      SlowIngestRepeats();
      TimelyWithin(SlowReplay(), -30 * SECOND, SLACK + 1, wait);
    }
  }

  // ---- an acknowledged report that is dropped ----

  /** Another report of the second in which BLANK was taken. */
  const TWIN := BLANK.(sequence := 2, at := 1)

  /** Two good reports with different identities from one second: both are acknowledged
      and only the first is counted. */
  lemma SecondReportOfASecondIsDropped()
    ensures var first, second := Arrival(BLANK, 0, 0, PLAIN), Arrival(TWIN, 0, 0, PLAIN);
      && AllValid([first]) && ValidEvent(second) && Id(BLANK) != Id(TWIN)
      && Answer(FRESH, BLANK, 0, PLAIN) == Accepted(true)
      && Answer(Run([first], 0).host, TWIN, 0, PLAIN) == Accepted(false)
      && Step(Run([first], 0), second).counted == [BLANK]
  {
    hide Counted, Derive, Apportioned, Contribution, Fits;
    var first := Arrival(BLANK, 0, 0, PLAIN);
    BlankIsAnswered(FRESH, 0);
    BlankIsCounted(FRESH, 0);
    assert Run([first][..0], 0) == Start(0);
    var w := Run([first], 0);
    assert w == Step(Start(0), first);
    assert w.host.receipts[("s", 1)] == Receipt(0, 0) && TWIN.at / SECOND == 0;
    assert Taken(w.host.receipts, TWIN);
  }
}
