/** The peaks of the daily and monthly traffic rows: the largest rate of the reports whose
    interval meets the period. */
module PeriodPeaks {
  import opened Basics
  import opened Calendar
  import opened Traffic
  import opened Telemetry
  import opened Rollups
  import opened RollupTable
  import opened Ingest
  import opened IngestRuns
  import opened RowMeaning

  /** The period that starts at `k` is among the first `n` that [cursor, to) touches. */
  ghost predicate Touched(z: Zone, billingDay: int, kind: Kind, cursor: int, to: int, n: int, k: int)
    requires ValidBilling(z, billingDay)
  {
    exists t :: cursor <= t < to && TouchedAt(z, billingDay, kind, cursor, n, k, t)
  }

  ghost predicate TouchedAt(z: Zone, billingDay: int, kind: Kind, cursor: int, n: int, k: int, t: int)
    requires ValidBilling(z, billingDay)
  {
    BillingPeriod(z, billingDay, kind, t).start == k && Crossed(z, billingDay, kind, cursor, t + 1) <= n
  }

  predicate Larger(c: real, a: real, b: real) {
    c >= a && c >= b && (c == a || c == b)
  }

  /** An instant of the period of the cursor, or a later one. */
  lemma TouchedUnfolds(z: Zone, billingDay: int, kind: Kind, cursor: int, to: int, n: int, k: int, t: int)
    requires ValidBilling(z, billingDay) && cursor <= t < to
    ensures var p := BillingPeriod(z, billingDay, kind, cursor);
      TouchedAt(z, billingDay, kind, cursor, n, k, t) <==>
        if t < p.end then n >= 1 && k == p.start else TouchedAt(z, billingDay, kind, p.end, n - 1, k, t)
  {
    PeriodsPartitionTime(z, billingDay, kind, cursor, cursor);
    PeriodsPartitionTime(z, billingDay, kind, cursor, t);
    CrossedStep(z, billingDay, kind, cursor, t + 1);
    NoneCrossed(z, billingDay, kind, t + 1);
    hide BillingPeriod, Crossed;
  }

  lemma CursorIsInside(z: Zone, billingDay: int, kind: Kind, cursor: int)
    requires ValidBilling(z, billingDay)
    ensures cursor < BillingPeriod(z, billingDay, kind, cursor).end
  {
    PeriodsPartitionTime(z, billingDay, kind, cursor, cursor);
  }

  lemma TouchedNext(z: Zone, billingDay: int, kind: Kind, cursor: int, to: int, n: int, k: int)
    requires ValidBilling(z, billingDay) && cursor < to
    ensures var p := BillingPeriod(z, billingDay, kind, cursor);
      && cursor < p.end
      && (Touched(z, billingDay, kind, cursor, to, n, k) <==>
          (n >= 1 && k == p.start) || Touched(z, billingDay, kind, Least(p.end, to), to, n - 1, k))
  {
    hide BillingPeriod, TouchedAt, ValidBilling;
    CursorIsInside(z, billingDay, kind, cursor);
    var p := BillingPeriod(z, billingDay, kind, cursor);
    var until := Least(p.end, to);
    forall t | cursor <= t < to
      ensures TouchedAt(z, billingDay, kind, cursor, n, k, t) <==>
        if t < until then n >= 1 && k == p.start else TouchedAt(z, billingDay, kind, until, n - 1, k, t)
    {
      TouchedUnfolds(z, billingDay, kind, cursor, to, n, k, t);
    }
    if n >= 1 && k == p.start { assert TouchedAt(z, billingDay, kind, cursor, n, k, cursor); }
    if Touched(z, billingDay, kind, until, to, n - 1, k) {
      var t :| until <= t < to && TouchedAt(z, billingDay, kind, until, n - 1, k, t);
      assert TouchedAt(z, billingDay, kind, cursor, n, k, t);
    }
  }

  /** Peak of an interface in one row. */
  function RowPeak(rows: Rows, k: int, name: string, dir: Direction): real {
    Peak(At(Row(rows, k), name), dir)
  }

  /** Apportioning a delta raises the peaks of the periods it reaches, and no others. */
  lemma {:induction false} AllocatePeaks(z: Zone, billingDay: int, kind: Kind, traffic: Totals, from: int, to: int,
                                         cursor: int, a: Allocation, i: nat, k: int, name: string, dir: Direction)
    requires ValidBilling(z, billingDay) && from < to && i <= MAX_PERIODS
    requires cursor <= to && AllCovered(traffic, a.left, from, to, cursor)
    requires RowPeak(a.rows, k, name, dir) >= 0.0
    ensures var was := RowPeak(a.rows, k, name, dir);
      var now := RowPeak(Allocate(z, billingDay, kind, traffic, from, to, cursor, a, i).rows, k, name, dir);
      if Touched(z, billingDay, kind, cursor, to, MAX_PERIODS - i, k)
      then Larger(now, was, Peak(At(traffic, name), dir)) else now == was
    decreases MAX_PERIODS - i
  {
    hide Joined, Covers, BillingPeriod, Touched, Share, At, Peak;
    if cursor < to && i < MAX_PERIODS {
      var p := BillingPeriod(z, billingDay, kind, cursor);
      var until := Least(p.end, to);
      TouchedNext(z, billingDay, kind, cursor, to, MAX_PERIODS - i, k);
      PortionFits(traffic, a.left, from, to, cursor, until);
      var portion := PortionOf(traffic, a.left, from, to, cursor, until);
      var next := Allocation(a.rows[p.start := Joined(Row(a.rows, p.start), portion)], Without(a.left, portion));
      if k == p.start {
        PortionPeaks(traffic, a.left, from, to, cursor, until, name, dir);
        JoinedMeans(Row(a.rows, k), portion, name, dir);
        OnceOnly(z, billingDay, kind, traffic, from, to, cursor, until, next, i + 1);
      } else {
        AllocatePeaks(z, billingDay, kind, traffic, from, to, until, next, i + 1, k, name, dir);
      }
    } else {
      NoneTouched(z, billingDay, kind, cursor, to, MAX_PERIODS - i, k);
    }
  }

  lemma PortionPeaks(traffic: Totals, left: Totals, from: int, to: int, cursor: int, until: int, name: string,
                     dir: Direction)
    requires from < to && cursor <= until && left.Keys == traffic.Keys
    ensures Peak(At(PortionOf(traffic, left, from, to, cursor, until), name), dir) == Peak(At(traffic, name), dir)
  {
    hide Share;
  }

  /** The period of the cursor is not met again. */
  lemma OnceOnly(z: Zone, billingDay: int, kind: Kind, traffic: Totals, from: int, to: int, cursor: int, until: int,
                 a: Allocation, i: nat)
    requires ValidBilling(z, billingDay) && from < to && i <= MAX_PERIODS && cursor < to
    requires until == Least(BillingPeriod(z, billingDay, kind, cursor).end, to)
    requires AllCovered(traffic, a.left, from, to, until)
    ensures var k := BillingPeriod(z, billingDay, kind, cursor).start;
      Row(Allocate(z, billingDay, kind, traffic, from, to, until, a, i).rows, k) == Row(a.rows, k)
  {
    hide BillingPeriod, Allocate, AllCovered;
    var p := BillingPeriod(z, billingDay, kind, cursor);
    PeriodsPartitionTime(z, billingDay, kind, cursor, cursor);
    forall u | until <= u < to ensures BillingPeriod(z, billingDay, kind, u).start != p.start {
      StartsAfter(z, billingDay, kind, cursor, u);
    }
    OtherRowsUntouched(z, billingDay, kind, traffic, from, to, until, a, i, p.start);
  }

  lemma NoneTouched(z: Zone, billingDay: int, kind: Kind, cursor: int, to: int, n: int, k: int)
    requires ValidBilling(z, billingDay) && (to <= cursor || n <= 0)
    ensures !Touched(z, billingDay, kind, cursor, to, n, k)
  {
    forall t | cursor <= t < to ensures !TouchedAt(z, billingDay, kind, cursor, n, k, t) {
      CrossedStep(z, billingDay, kind, cursor, t + 1);
    }
    hide Crossed, BillingPeriod;
  }

  // ---- whole runs ----

  /** A counted report adds to the row of a period: it comes after the latest one, and the
      period is among the first 366 that the time between the two touches. */
  ghost predicate Adds(w: World, e: Event, kind: Kind, k: int)
    requires ValidEvent(e) && e.Arrival?
  {
    && Counts(w, e) && w.host.latest.Some? && w.host.latest.value.sample.at < e.m.at
    && Touched(e.cfg.zone, e.cfg.billingDay, kind, w.host.latest.value.sample.at, e.m.at, MAX_PERIODS, k)
  }

  ghost function PeriodEntries(events: seq<Event>, start: int, kind: Kind, k: int): seq<Entry>
    requires AllValid(events)
  {
    if |events| == 0 then []
    else
      var past, e := events[..|events| - 1], events[|events| - 1];
      var w := Run(past, start);
      PeriodEntries(past, start, kind, k)
      + if e.Arrival? && Adds(w, e, kind, k) then [Entry(Derive(e.m, w.host.latest, e.cfg), e.cfg)] else []
  }

  /** The time of the last clean-up of period rows. */
  function PeriodHorizon(events: seq<Event>, start: int): int {
    if |events| == 0 then start
    else
      var e := events[|events| - 1];
      if e.Cleanup? && e.sweep == OldPeriods then e.now else PeriodHorizon(events[..|events| - 1], start)
  }

  lemma {:induction false} HorizonIsPast(events: seq<Event>, start: int, wait: int)
    requires AllValid(events) && Timely(events, start, wait)
    ensures PeriodHorizon(events, start) <= Run(events, start).clock
  {
    if |events| > 0 {
      HorizonIsPast(events[..|events| - 1], start, wait);
      ClockStep(Run(events[..|events| - 1], start), events[|events| - 1]);
    }
    hide Step;
  }

  lemma ClockStep(w: World, e: Event)
    requires ValidEvent(e)
    ensures Step(w, e).clock == e.now
  {
    hide Derive, Contribution, Apportioned, Answer, Ordered, Swept;
  }

  lemma ArrivalPeaks(w: World, e: Event, kind: Kind, k: int, name: string, dir: Direction)
    requires ValidEvent(e) && e.Arrival? && RowPeak(RowsOf(w.host, kind), k, name, dir) >= 0.0
    ensures var was := RowPeak(RowsOf(w.host, kind), k, name, dir);
      var now := RowPeak(RowsOf(Step(w, e).host, kind), k, name, dir);
      if Adds(w, e, kind, k)
      then Larger(now, was, Peak(At(Derive(e.m, w.host.latest, e.cfg).traffic, name), dir)) else now == was
  {
    if Counts(w, e) {
      DeriveKeepsSample(e.m, w.host.latest, e.cfg);
      var l := Derive(e.m, w.host.latest, e.cfg);
      CountedRows(w, e, kind);
      hide Derive, Step, Touched, Allocate, Peak, At, Row;
      if w.host.latest.Some? && w.host.latest.value.sample.at < e.m.at {
        ApportionPeaks(e.cfg.zone, e.cfg.billingDay, kind, l.traffic, w.host.latest.value.sample.at, e.m.at,
                       RowsOf(w.host, kind), k, name, dir);
      }
    } else {
      hide Answer, Derive;
    }
  }

  lemma CountedRows(w: World, e: Event, kind: Kind)
    requires ValidEvent(e) && Counts(w, e)
    ensures RowsOf(Step(w, e).host, kind)
         == Apportioned(RowsOf(w.host, kind), kind, Derive(e.m, w.host.latest, e.cfg), w.host.latest, e.cfg).rows
  {
    hide Derive, Contribution, Apportioned, Answer, Ordered, Recorded;
  }

  lemma ApportionPeaks(z: Zone, billingDay: int, kind: Kind, traffic: Totals, from: int, to: int, rows: Rows, k: int,
                       name: string, dir: Direction)
    requires ValidBilling(z, billingDay) && from < to && RowPeak(rows, k, name, dir) >= 0.0
    ensures var was := RowPeak(rows, k, name, dir);
      var now := RowPeak(Apportion(z, billingDay, kind, traffic, from, to, rows).rows, k, name, dir);
      if Touched(z, billingDay, kind, from, to, MAX_PERIODS, k)
      then Larger(now, was, Peak(At(traffic, name), dir)) else now == was
  {
    hide Allocate, Touched, Joined;
    if |traffic| != 0 {
      WholeIsCovered(traffic, from, to);
      AllocatePeaks(z, billingDay, kind, traffic, from, to, from, Allocation(rows, Joined(map[], traffic)), 0, k, name,
                    dir);
    } else {
      assert traffic == map[];
    }
  }

  lemma LargestGrows(p: real, q: real, es: seq<Entry>, e: Entry, name: string, dir: Direction)
    requires IsLargestPeak(p, es, name, dir) && Larger(q, p, PeakOf(e, name, dir))
    ensures IsLargestPeak(q, es + [e], name, dir)
  {
    assert e in es + [e] && forall x :: x in es + [e] <==> x in es || x == e;
  }

  lemma SweepPeaks(w: World, sweep: Sweep, now: int, kind: Kind, k: int, name: string, dir: Direction)
    requires sweep == OldPeriods ==> now - TRAFFIC_KEEP <= k
    ensures RowPeak(RowsOf(Step(w, Cleanup(sweep, now)).host, kind), k, name, dir)
         == RowPeak(RowsOf(w.host, kind), k, name, dir)
  {
    hide Retained, Expired, ReceiptsKept, RowsGone;
  }

  /** In every reachable state the peak in the row of a billing period that is not past its
      retention is the largest rate among the counted reports that added to it, or zero. */
  lemma {:induction false} PeriodPeakIsLargest(events: seq<Event>, start: int, wait: int, kind: Kind, k: int,
                                               name: string, dir: Direction)
    requires AllValid(events) && Timely(events, start, wait)
    requires PeriodHorizon(events, start) - TRAFFIC_KEEP <= k
    ensures IsLargestPeak(RowPeak(RowsOf(Run(events, start).host, kind), k, name, dir),
                          PeriodEntries(events, start, kind, k), name, dir)
  {
    hide Step, RowPeak, Adds, IsLargestPeak;
    if |events| > 0 {
      var past, e := events[..|events| - 1], events[|events| - 1];
      HorizonIsPast(past, start, wait);
      PeriodPeakIsLargest(past, start, wait, kind, k, name, dir);
      var w, es := Run(past, start), PeriodEntries(past, start, kind, k);
      PeakIsPositive(RowPeak(RowsOf(w.host, kind), k, name, dir), es, name, dir);
      if e.Cleanup? {
        SweepPeaks(w, e.sweep, e.now, kind, k, name, dir);
        assert PeriodEntries(events, start, kind, k) == es;
      } else {
        ArrivalPeaks(w, e, kind, k, name, dir);
        if Adds(w, e, kind, k) {
          LargestGrows(RowPeak(RowsOf(w.host, kind), k, name, dir),
                       RowPeak(RowsOf(Step(w, e).host, kind), k, name, dir), es,
                       Entry(Derive(e.m, w.host.latest, e.cfg), e.cfg), name, dir);
        } else {
          assert PeriodEntries(events, start, kind, k) == es;
        }
      }
    } else {
      NoPeak(start, kind, k, name, dir);
    }
  }

  lemma PeakIsPositive(p: real, es: seq<Entry>, name: string, dir: Direction)
    requires IsLargestPeak(p, es, name, dir)
    ensures p >= 0.0
  {}

  lemma NoPeak(start: int, kind: Kind, k: int, name: string, dir: Direction)
    ensures IsLargestPeak(RowPeak(RowsOf(Start(start).host, kind), k, name, dir), [], name, dir)
  {}
}
