/** What a row says, in terms of the reports that were counted in its span: how many there
    were, the statistics of every reading, the bytes and peaks of every interface and the
    outcomes of every check. */
module RowMeaning {
  import opened Basics
  import opened Calendar
  import opened Traffic
  import opened Telemetry
  import opened Rollups
  import opened RollupTable
  import opened Ingest
  import opened IngestRuns
  import History
  import Stats

  /** A counted report as derived, and the settings it was handled with. */
  datatype Entry = Entry(l: Latest, cfg: Settings)

  /** The reports counted in [lo, hi), in the order in which they were stored. */
  ghost function Entries(events: seq<Event>, start: int, lo: int, hi: int): seq<Entry>
    requires AllValid(events)
  {
    if |events| == 0 then []
    else
      var past, e := events[..|events| - 1], events[|events| - 1];
      var w := Run(past, start);
      Entries(past, start, lo, hi)
      + if Counts(w, e) && lo <= e.m.at < hi then [Entry(Derive(e.m, w.host.latest, e.cfg), e.cfg)] else []
  }

  // ---- what the reports of a span say ----

  /** The readings of one series. */
  function Readings(es: seq<Entry>, k: string): seq<real> {
    if |es| == 0 then []
    else
      var l := es[|es| - 1].l;
      Readings(es[..|es| - 1], k) + if k in l.values then [l.values[k]] else []
  }

  function TotalBytes(es: seq<Entry>, name: string, dir: Direction): nat {
    if |es| == 0 then 0
    else TotalBytes(es[..|es| - 1], name, dir) + Bytes(At(es[|es| - 1].l.traffic, name), dir)
  }

  function PeakOf(e: Entry, name: string, dir: Direction): real {
    Peak(At(e.l.traffic, name), dir)
  }

  /** The largest peak of the reports, or zero. */
  ghost predicate IsLargestPeak(p: real, es: seq<Entry>, name: string, dir: Direction) {
    && p >= 0.0 && (forall e :: e in es ==> PeakOf(e, name, dir) <= p)
    && (p == 0.0 || exists e :: e in es && PeakOf(e, name, dir) == p)
  }

  /** The results of one report for a target that is configured with their kind. */
  function Matching(checks: seq<Check>, cfg: Settings, target: string): seq<Check> {
    if |checks| == 0 then []
    else
      var c := checks[|checks| - 1];
      Matching(checks[..|checks| - 1], cfg, target)
      + if c.target == target && (target, c.kind) in cfg.checks then [c] else []
  }

  function Results(es: seq<Entry>, target: string): seq<Check> {
    if |es| == 0 then []
    else
      var e := es[|es| - 1];
      Results(es[..|es| - 1], target) + Matching(e.l.sample.checks, e.cfg, target)
  }

  datatype Ending = Success | Failure | Unavailable

  predicate EndsIn(c: Check, ending: Ending) {
    match ending
    case Success => c.success && !c.unavailable
    case Failure => !c.success && !c.unavailable
    case Unavailable => c.unavailable
  }

  /** How many results end so. */
  function Number(cs: seq<Check>, ending: Ending): nat {
    if |cs| == 0 then 0 else Number(cs[..|cs| - 1], ending) + if EndsIn(cs[|cs| - 1], ending) then 1 else 0
  }

  /** The latencies of the checks that succeeded. */
  function Latencies(cs: seq<Check>): seq<real> {
    if |cs| == 0 then []
    else
      var c := cs[|cs| - 1];
      Latencies(cs[..|cs| - 1]) + if EndsIn(c, Success) then [c.latency] else []
  }

  // ---- and what a row says of them ----

  ghost predicate SaysReadings(metrics: map<string, Stats.Stat>, es: seq<Entry>) {
    forall k :: (k in metrics <==> Readings(es, k) != [])
                && (k in metrics ==> metrics[k] == Stats.Describe(Readings(es, k)))
  }

  ghost predicate SaysTraffic(traffic: Totals, es: seq<Entry>) {
    forall name, dir :: Bytes(At(traffic, name), dir) == TotalBytes(es, name, dir)
                        && IsLargestPeak(Peak(At(traffic, name), dir), es, name, dir)
  }

  ghost predicate SaysResults(t: CheckTotals, cs: seq<Check>) {
    && t.success == Number(cs, Success) && t.failure == Number(cs, Failure)
    && t.unavailable == Number(cs, Unavailable)
    && t.latency == Stats.Describe(Latencies(cs))
  }

  ghost predicate SaysChecks(checks: map<string, CheckTotals>, es: seq<Entry>) {
    forall target :: (target in checks <==> Results(es, target) != [])
                     && (target in checks ==> SaysResults(checks[target], Results(es, target)))
  }

  ghost predicate Says(r: Rollup, es: seq<Entry>) {
    && r.count == |es| && (r.gap <==> exists e :: e in es && (e.l.gap || e.l.reset))
    && SaysReadings(r.metrics, es) && SaysTraffic(r.traffic, es) && SaysChecks(r.checks, es)
  }

  // ---- one more report ----

  lemma LastOf<T>(es: seq<T>, e: T)
    ensures (es + [e])[..|es + [e]| - 1] == es && (es + [e])[|es + [e]| - 1] == e
  {}

  lemma ReadingsGrow(metrics: map<string, Stats.Stat>, es: seq<Entry>, e: Entry)
    requires SaysReadings(metrics, es)
    ensures SaysReadings(Combine(Stats.Merge, Stats.ZERO, metrics, Contribution(e.l, e.cfg).metrics), es + [e])
  {
    var next := Combine(Stats.Merge, Stats.ZERO, metrics, Contribution(e.l, e.cfg).metrics);
    LastOf(es, e);
    forall k
      ensures k in next <==> Readings(es + [e], k) != []
      ensures k in next ==> next[k] == Stats.Describe(Readings(es + [e], k))
    {
      if k in e.l.values {
        var rs, v := Readings(es, k), e.l.values[k];
        Stats.DescribeCounts(rs);
        Stats.AddIsMerge(Stats.Describe(rs), v);
        LastOf(rs, v);
        assert rs == [] ==> Stats.Describe(rs) == Stats.ZERO;
        assert Readings(es + [e], k) == rs + [v];
        assert next[k] == Stats.Merge(if k in metrics then metrics[k] else Stats.ZERO, Stats.Add(Stats.ZERO, v));
        assert Stats.Describe(rs + [v]) == Stats.Add(Stats.Describe(rs), v);
      } else {
        assert Readings(es + [e], k) == Readings(es, k);
      }
      hide Stats.Add, Stats.Merge;
    }
  }

  lemma TrafficGrows(traffic: Totals, es: seq<Entry>, e: Entry)
    requires SaysTraffic(traffic, es)
    ensures SaysTraffic(Joined(traffic, e.l.traffic), es + [e])
  {
    LastOf(es, e);
    hide Joined, At;
    forall name, dir
      ensures Bytes(At(Joined(traffic, e.l.traffic), name), dir) == TotalBytes(es + [e], name, dir)
      ensures IsLargestPeak(Peak(At(Joined(traffic, e.l.traffic), name), dir), es + [e], name, dir)
    {
      assert IsLargestPeak(Peak(At(traffic, name), dir), es, name, dir);
      JoinedMeans(traffic, e.l.traffic, name, dir);
      assert PeakOf(e, name, dir) == Peak(At(e.l.traffic, name), dir);
      assert e in es + [e] && forall x :: x in es ==> x in es + [e];
    }
  }

  lemma {:induction false} NumbersAdd(a: seq<Check>, b: seq<Check>, ending: Ending)
    ensures Number(a + b, ending) == Number(a, ending) + Number(b, ending)
    ensures Latencies(a + b) == Latencies(a) + Latencies(b)
  {
    hide EndsIn;
    if |b| == 0 {
      assert a + b == a;
    } else {
      NumbersAdd(a, b[..|b| - 1], ending);
      assert (a + b)[..|a + b| - 1] == a + b[..|b| - 1];
    }
  }

  lemma ResultsAdd(t: CheckTotals, a: seq<Check>, u: CheckTotals, b: seq<Check>)
    requires SaysResults(t, a) && SaysResults(u, b)
    ensures SaysResults(AddChecks(t, u), a + b)
  {
    hide Stats.Merge, Stats.Describe, Number, Latencies;
    NumbersAdd(a, b, Success);
    NumbersAdd(a, b, Failure);
    NumbersAdd(a, b, Unavailable);
    Stats.MergeIsConcatenation(Latencies(a), Latencies(b));
  }

  lemma NoResults()
    ensures SaysResults(NO_CHECKS, [])
  {}

  lemma OneResult(c: Check)
    ensures SaysResults(Outcome(c), [c])
  {
    var none: seq<Check> := [];
    assert none + [c] == [c];
    LastOf(none, c);
    if EndsIn(c, Success) {
      assert Latencies([c]) == [c.latency];
      assert Stats.Describe([c.latency]) == Stats.Add(Stats.ZERO, c.latency) by {
        assert [c.latency][..0] == [];
      }
    }
  }

  /** Adding results to what is known of others. */
  lemma CombinedResults(m: map<string, CheckTotals>, a: seq<Check>, n: map<string, CheckTotals>, b: seq<Check>,
                        target: string)
    requires (target in m <==> a != []) && (target in m ==> SaysResults(m[target], a))
    requires (target in n <==> b != []) && (target in n ==> SaysResults(n[target], b))
    ensures var c := Combine(AddChecks, NO_CHECKS, m, n);
      (target in c <==> a + b != []) && (target in c ==> SaysResults(c[target], a + b))
  {
    NoResults();
    if target in n { ResultsAdd(if target in m then m[target] else NO_CHECKS, a, n[target], b); }
    hide SaysResults, AddChecks;
    assert target !in n ==> a + b == a;
  }

  lemma {:induction false} MatchingIsFolded(checks: seq<Check>, cfg: Settings, target: string)
    ensures var m, cs := CheckFold(checks, cfg), Matching(checks, cfg, target);
      (target in m <==> cs != []) && (target in m ==> SaysResults(m[target], cs))
  {
    hide Combine, Outcome, SaysResults;
    if |checks| > 0 {
      var most, c := checks[..|checks| - 1], checks[|checks| - 1];
      MatchingIsFolded(most, cfg, target);
      if Wanted(c, cfg) {
        var one := if c.target == target then [c] else [];
        assert Matching(checks, cfg, target) == Matching(most, cfg, target) + one;
        OneResult(c);
        CombinedResults(CheckFold(most, cfg), Matching(most, cfg, target), map[c.target := Outcome(c)], one, target);
      } else {
        assert Matching(checks, cfg, target) == Matching(most, cfg, target);
      }
    }
  }

  lemma ChecksGrow(checks: map<string, CheckTotals>, es: seq<Entry>, e: Entry)
    requires SaysChecks(checks, es)
    ensures SaysChecks(Combine(AddChecks, NO_CHECKS, checks, CheckFold(e.l.sample.checks, e.cfg)), es + [e])
  {
    hide Combine, CheckFold, Matching, SaysResults;
    LastOf(es, e);
    forall target
      ensures var c := Combine(AddChecks, NO_CHECKS, checks, CheckFold(e.l.sample.checks, e.cfg));
        && (target in c <==> Results(es + [e], target) != [])
        && (target in c ==> SaysResults(c[target], Results(es + [e], target)))
    {
      MatchingIsFolded(e.l.sample.checks, e.cfg, target);
      CombinedResults(checks, Results(es, target), CheckFold(e.l.sample.checks, e.cfg),
                      Matching(e.l.sample.checks, e.cfg, target), target);
    }
  }

  lemma RowGrows(r: Rollup, es: seq<Entry>, e: Entry)
    requires Says(r, es)
    ensures Says(MergeRollups(r, Contribution(e.l, e.cfg)), es + [e])
  {
    ReadingsGrow(r.metrics, es, e);
    TrafficGrows(r.traffic, es, e);
    ChecksGrow(r.checks, es, e);
    hide SaysReadings, SaysTraffic, SaysChecks, Combine, Joined, CheckFold;
    assert e in es + [e] && forall x :: x in es + [e] <==> x in es || x == e;
  }

  lemma NothingSaid()
    ensures Says(EMPTY, [])
  {}

  // ---- whole runs ----

  /** The fold of the counted reports of a span says what they say. */
  lemma {:induction false} FoldSays(events: seq<Event>, start: int, lo: int, hi: int)
    requires AllValid(events)
    ensures Says(Fold(Run(events, start).log, lo, hi), Entries(events, start, lo, hi))
  {
    hide Says;
    if |events| == 0 {
      NothingSaid();
      NothingLogged(start, lo, hi);
    } else {
      var past, e := events[..|events| - 1], events[|events| - 1];
      FoldSays(past, start, lo, hi);
      var w := Run(past, start);
      LogStep(w, e);
      if Counts(w, e) {
        var l := Derive(e.m, w.host.latest, e.cfg);
        LastOf(w.log, Point(e.m.at, Contribution(l, e.cfg)));
        if lo <= e.m.at < hi {
          RowGrows(Fold(w.log, lo, hi), Entries(past, start, lo, hi), Entry(l, e.cfg));
        } else {
          assert Entries(events, start, lo, hi) == Entries(past, start, lo, hi);
        }
      } else {
        assert Entries(events, start, lo, hi) == Entries(past, start, lo, hi);
      }
    }
  }

  lemma NothingLogged(start: int, lo: int, hi: int)
    ensures Fold(Start(start).log, lo, hi) == EMPTY
  {}

  lemma LogStep(w: World, e: Event)
    requires ValidEvent(e)
    ensures Step(w, e).log
         == if Counts(w, e) then w.log + [Point(e.m.at, Contribution(Derive(e.m, w.host.latest, e.cfg), e.cfg))]
            else w.log
  {
    hide Derive, Contribution, Apportioned, Answer, Ordered, Swept;
  }

  /** In every reachable state a row that is still retained says exactly what the reports
      counted in its span say: their number, whether one came after a gap or a reset, the
      statistics of each reading, the bytes and the largest peak of each interface, and
      the outcomes of each configured check. */
  lemma RetainedRowsSay(events: seq<Event>, start: int, wait: int, i: nat, at: int)
    requires AllValid(events) && Timely(events, start, wait)
    requires i < 3 && Live(at, i, Run(events, start).horizon)
    ensures Says(Get(Run(events, start).host.rolls, Slot(STEPS[i], at)),
                 Entries(events, start, at, at + STEPS[i] * SECOND))
  {
    ReachableRollupsAreExact(events, start, wait);
    FoldSays(events, start, at, at + STEPS[i] * SECOND);
    hide Says, Run, Fold, Entries, Get;
  }

  /** The same of every display point, as far as its bucket lies in the fetched rows and
      these are still retained; an explicit gap exactly when no report was counted there. */
  lemma DisplayPointsSay(events: seq<Event>, start: int, wait: int, now: int, from: int, to: int,
                         points: seq<Point>, t: int, a: int, b: int)
    requires AllValid(events) && Timely(events, start, wait)
    requires Run(events, start).clock <= now && History.ValidRange(now, from, to)
    requires History.Fetched(points, Run(events, start).host.rolls, STEPS[History.Resolution(now, from, to)], from, to)
    requires var step := STEPS[History.Resolution(now, from, to)];
      var width := step * History.Factor(from, to, step) * SECOND;
      && width > 0 && t % width == 0
      && a == Most(t, Truncate(from, step)) && b == Least(t + width, Truncate(to, step) + step * SECOND)
    requires Live(a, History.Resolution(now, from, to), Run(events, start).horizon)
    ensures var step := STEPS[History.Resolution(now, from, to)];
      var width := step * History.Factor(from, to, step) * SECOND;
      var es := Entries(events, start, a, b);
      if es == [] then History.Shown(points, t, width) == EMPTY.(gap := true)
      else Says(History.Shown(points, t, width), es)
  {
    FoldSays(events, start, a, b);
    assert Fold(Run(events, start).log, a, b).count == |Entries(events, start, a, b)|;
    hide Says, Run, Fold, Entries, History.Shown, History.Factor, History.Fetched, Truncate;
    History.DisplayPointsAreDirectFolds(events, start, wait, now, from, to, points, t, a, b);
  }
}
