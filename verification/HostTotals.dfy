/** What the server derives from a report, in terms of the two reports alone: the totals
    of the host over the interfaces chosen for it, and when there is anything at all. */
module HostTotals {
  import opened Basics
  import opened Traffic
  import opened Telemetry
  import opened Calendar

  /** The rates of an interface go into the totals of the host. */
  ghost predicate Totalled(p: Sample, m: Sample, cfg: Settings, i: nat)
    requires i < |m.network|
  {
    var n := m.network[i];
    && Contiguous(p, m, n.name) && n.name !in cfg.excluded
    && (n.name in cfg.interfaces || (cfg.interfaces == [] && n.primary))
  }

  /** What the counters of these interfaces increased by, among the first `n`. */
  ghost function Increase(p: Sample, m: Sample, cfg: Settings, dir: Direction, n: nat): int
    requires n <= |m.network|
  {
    if n == 0 then 0
    else
      var name := m.network[n - 1].name;
      Increase(p, m, cfg, dir, n - 1)
      + if Totalled(p, m, cfg, n - 1) then Counter(m, name, dir) - Counter(p, name, dir) else 0
  }

  function TotalKey(dir: Direction): string {
    match dir case Rx => "rx" case Tx => "tx"
  }

  function Sum(a: Aggregate, dir: Direction): real {
    match dir case Rx => a.rx case Tx => a.tx
  }

  lemma {:induction false} NamedEntry(net: seq<Interface>, i: nat)
    requires DistinctNames(net) && i < |net|
    ensures net[i].name in ByName(net) && ByName(net)[net[i].name] == net[i]
  {
    var most := net[..|net| - 1];
    if i < |most| { NamedEntry(most, i); }
  }

  /** How the loop tells a contiguous interface. */
  lemma ContinuesWhenContiguous(p: Sample, m: Sample, i: nat)
    requires DistinctNames(m.network) && i < |m.network| && p.boot == m.boot
    ensures Contiguous(p, m, m.network[i].name) <==> Continues(ByName(p.network), m.network[i])
  {
    NamedEntry(m.network, i);
    hide DistinctNames, ByName;
  }

  /** Over the elapsed time the rate gives back the bytes. */
  ghost predicate GivesBack(rate: real, dt: int, bytes: int) {
    rate * dt as real == bytes as real * SECOND as real
  }

  lemma RatesAdd(a: real, total: int, bytes: nat, dt: int)
    requires dt > 0 && GivesBack(a, dt, total)
    ensures GivesBack(a + PerSecond(bytes, dt), dt, total + bytes)
  {
    RateTimesTime(bytes, dt);
    hide PerSecond;
    var x, d := PerSecond(bytes, dt), dt as real;
    assert (a + x) * d == a * d + x * d;
  }

  lemma NoRate(dt: int)
    ensures GivesBack(0.0, dt, 0)
  {}

  /** How the loop chooses, and what it then adds. */
  lemma TotalledByLoop(p: Sample, m: Sample, cfg: Settings, i: nat)
    requires DistinctNames(m.network) && i < |m.network| && p.boot == m.boot
    ensures var prior, n := ByName(p.network), m.network[i];
      && (Totalled(p, m, cfg, i) <==> Continues(prior, n) && Selected(n, cfg))
      && (Continues(prior, n) ==> forall dir, dt: int :: dt > 0 ==>
           Bytes(Delta(prior, n, dt, false), dir) == Counter(m, n.name, dir) - Counter(p, n.name, dir))
  {
    ContinuesWhenContiguous(p, m, i);
    NamedEntry(m.network, i);
    hide DistinctNames, ByName, PerSecond;
  }

  lemma DeltaPeak(prior: map<string, Interface>, n: Interface, dt: int, dir: Direction)
    requires dt > 0 && Continues(prior, n)
    ensures Peak(Delta(prior, n, dt, false), dir) == PerSecond(Bytes(Delta(prior, n, dt, false), dir), dt)
  {}

  lemma {:induction false} AggregateIsIncrease(p: Sample, m: Sample, cfg: Settings, dir: Direction, n: nat)
    requires DistinctNames(m.network) && n <= |m.network| && p.boot == m.boot && p.at < m.at
    ensures var a := Aggregated(ByName(p.network), m.network[..n], m.at - p.at, cfg);
      GivesBack(Sum(a, dir), m.at - p.at, Increase(p, m, cfg, dir, n))
  {
    hide DistinctNames, ByName, PerSecond, Totalled, Continues, Selected, Delta, GivesBack, Aggregated, Counter;
    var net, dt := m.network, m.at - p.at;
    var prior := ByName(p.network);
    if n > 0 {
      AggregateIsIncrease(p, m, cfg, dir, n - 1);
      TotalledByLoop(p, m, cfg, n - 1);
      AggregatedGrow(prior, net, n - 1, dt, cfg);
      if Totalled(p, m, cfg, n - 1) {
        var a := Aggregated(prior, net[..n - 1], dt, cfg);
        DeltaPeak(prior, net[n - 1], dt, dir);
        RatesAdd(Sum(a, dir), Increase(p, m, cfg, dir, n - 1), Bytes(Delta(prior, net[n - 1], dt, false), dir), dt);
      }
    } else {
      NoRate(dt);
      NothingAggregated(prior, net, dt, cfg);
    }
  }

  lemma NothingAggregated(prior: map<string, Interface>, net: seq<Interface>, dt: int, cfg: Settings)
    requires dt > 0
    ensures Aggregated(prior, net[..0], dt, cfg) == Aggregate(0, 0.0, 0.0)
  {}

  lemma {:induction false} AggregateCounts(p: Sample, m: Sample, cfg: Settings, n: nat)
    requires DistinctNames(m.network) && n <= |m.network| && p.boot == m.boot && p.at < m.at
    ensures Aggregated(ByName(p.network), m.network[..n], m.at - p.at, cfg).count > 0
      <==> exists i :: 0 <= i < n && Totalled(p, m, cfg, i)
  {
    hide DistinctNames, ByName, PerSecond, Totalled, Continues, Selected, Delta, Aggregated, Counter;
    if n > 0 {
      AggregateCounts(p, m, cfg, n - 1);
      TotalledByLoop(p, m, cfg, n - 1);
      AggregatedGrow(ByName(p.network), m.network, n - 1, m.at - p.at, cfg);
    } else {
      NothingAggregated(ByName(p.network), m.network, m.at - p.at, cfg);
    }
  }

  /** The totals of the host. Without a gap, each direction's total over the elapsed time
      gives back what the counters of the totalled interfaces increased by; without such
      an interface there is none but what was reported under that name. */
  lemma TotalsAreIncreases(m: Sample, p: Latest, cfg: Settings, dir: Direction)
    requires p.sample.boot == m.boot && DistinctNames(m.network)
    requires 0 < m.at - p.sample.at
    requires m.at - p.sample.at <= 10 * SECOND || m.at - p.sample.at <= cfg.interval * 3 * SECOND
    ensures var l, k, dt := Derive(m, Some(p), cfg), TotalKey(dir), m.at - p.sample.at;
      if exists i :: 0 <= i < |m.network| && Totalled(p.sample, m, cfg, i) then
        && k in l.values
        && l.values[k] * dt as real == Increase(p.sample, m, cfg, dir, |m.network|) as real * SECOND as real
      else
        (k in l.values <==> k in m.gauges) && (k in l.values ==> l.values[k] == m.gauges[k])
  {
    hide ByName, DistinctNames, Totalled, Increase, Aggregated, Rates, DiskRates, DisksByName, Deltas, Breaks;
    var prior, net, dt := ByName(p.sample.network), m.network, m.at - p.sample.at;
    var k := TotalKey(dir);
    assert !IsGap(dt, cfg);
    AggregateIsIncrease(p.sample, m, cfg, dir, |net|);
    AggregateCounts(p.sample, m, cfg, |net|);
    assert net[..|net|] == net;
    NotARate(prior, net, dt, dir);
    NotOfADisk(DisksByName(p.sample.disks), m.disks, dt, dir);
  }

  lemma NotOfADisk(prior: map<string, Disk>, disks: seq<Disk>, dt: int, dir: Direction)
    requires dt > 0
    ensures TotalKey(dir) !in DiskRates(prior, disks, dt)
  {
    hide DiskRates;
    if TotalKey(dir) in DiskRates(prior, disks, dt) { DiskKeys(prior, disks, dt, TotalKey(dir)); }
  }

  lemma {:induction false} RateKeys(prior: map<string, Interface>, net: seq<Interface>, dt: int, k: string)
    requires dt > 0 && k in Rates(prior, net, dt)
    ensures |k| > 3 && k[0] == 'n'
  {
    hide CounterRates;
    var most, n := net[..|net| - 1], net[|net| - 1];
    if k in Rates(prior, most, dt) {
      RateKeys(prior, most, dt, k);
    } else if k != RateKey(n.name, Rx) && k != RateKey(n.name, Tx) {
      CounterKeys(NetPrefix(n.name), FAULTS, prior[n.name].faults, n.faults, dt, k);
    }
  }

  lemma NotARate(prior: map<string, Interface>, net: seq<Interface>, dt: int, dir: Direction)
    requires dt > 0
    ensures TotalKey(dir) !in Rates(prior, net, dt)
  {
    hide Rates;
    if TotalKey(dir) in Rates(prior, net, dt) { RateKeys(prior, net, dt, TotalKey(dir)); }
  }

  // ---- when there is anything to derive, and what ----

  /** Exactly when a report counts as one after a gap or a reset, and that nothing is
      derived across a reboot, out of order, or without a report before. */
  lemma FlagsAreExact(m: Sample, previous: Option<Latest>, cfg: Settings)
    requires DistinctNames(m.network)
    ensures var l := Derive(m, previous, cfg);
      if previous.None? || m.at <= previous.value.sample.at then
        !l.gap && !l.reset && l.values == m.gauges && l.traffic == map[]
      else
        var p := previous.value.sample;
        && (l.gap <==> m.at - p.at > 10 * SECOND && m.at - p.at > cfg.interval * 3 * SECOND)
        && (l.reset <==> p.boot != m.boot || exists n :: n in m.network && !Contiguous(p, m, n.name))
        && (forall name :: name in l.traffic <==> Contiguous(p, m, name))
        && (l.gap || p.boot != m.boot ==> l.values == m.gauges)
  {
    hide Values, Continues, Delta, ByName, Contiguous, DistinctNames;
    if previous.Some? && previous.value.sample.at < m.at {
      var p, net := previous.value.sample, m.network;
      var prior := ByName(p.network);
      if p.boot == m.boot {
        forall n | n in net ensures Continues(prior, n) <==> Contiguous(p, m, n.name) {
          var i :| 0 <= i < |net| && net[i] == n;
          ContinuesWhenContiguous(p, m, i);
        }
        forall name ensures name in ByName(net) && Continues(prior, ByName(net)[name]) <==> Contiguous(p, m, name) {
          ContiguousByName(p, m, name);
        }
        if IsGap(m.at - p.at, cfg) { GapHasNoValues(p, m, cfg); }
      } else {
        forall name ensures !Contiguous(p, m, name) { ContiguousByName(p, m, name); }
      }
    }
  }

  lemma ContiguousByName(p: Sample, m: Sample, name: string)
    ensures Contiguous(p, m, name) <==>
      p.boot == m.boot && name in ByName(m.network) && Continues(ByName(p.network), ByName(m.network)[name])
  {
    ByNameHas(m.network, name);
    hide ByName;
  }

  lemma GapHasNoValues(p: Sample, m: Sample, cfg: Settings)
    requires p.at < m.at && IsGap(m.at - p.at, cfg)
    ensures Values(p, m, cfg) == m.gauges
  {}

  /** A series that derives from the two reports: a rate or a counter of a contiguous
      interface, a total, or a counter of a disk that did not decrease. */
  ghost predicate Derivable(p: Sample, m: Sample, cfg: Settings, k: string) {
    || (exists n, dir :: n in m.network && Contiguous(p, m, n.name) && k == RateKey(n.name, dir))
    || (exists n, key :: n in m.network && key in FAULTS && Contiguous(p, m, n.name) && k == NetPrefix(n.name) + key
          && Count(ByName(p.network)[n.name].faults, key) <= Count(n.faults, key))
    || (exists i, dir :: 0 <= i < |m.network| && Totalled(p, m, cfg, i) && k == TotalKey(dir))
    || (exists d, key :: d in m.disks && key in IO && d.name in DisksByName(p.disks) && k == DiskPrefix(d.name) + key
          && Count(DisksByName(p.disks)[d.name].counters, key) <= Count(d.counters, key))
  }

  lemma CounterKeyOf(prefix: string, keys: seq<string>, prior: Counters, now: Counters, dt: int, k: string)
    returns (key: string)
    requires dt > 0 && k in CounterRates(prefix, keys, prior, now, dt)
    ensures key in keys && k == prefix + key && Count(prior, key) <= Count(now, key)
  {
    CounterKeys(prefix, keys, prior, now, dt, k);
    hide CounterRates;
    key :| key in keys && k == prefix + key;
    CounterRateOf(prefix, keys, prior, now, dt, key);
  }

  lemma {:induction false} RatesAreDerivable(p: Sample, m: Sample, cfg: Settings, n: nat, k: string)
    requires p.boot == m.boot && p.at < m.at && DistinctNames(m.network) && n <= |m.network|
    requires k in Rates(ByName(p.network), m.network[..n], m.at - p.at)
    ensures Derivable(p, m, cfg, k)
  {
    hide CounterRates, ByName, DistinctNames, RateKey, NetPrefix, Delta, Contiguous, Continues, Count;
    var prior, net, dt := ByName(p.network), m.network, m.at - p.at;
    var e := net[n - 1];
    assert net[..n][..n - 1] == net[..n - 1];
    ContinuesWhenContiguous(p, m, n - 1);
    if k in Rates(prior, net[..n - 1], dt) {
      RatesAreDerivable(p, m, cfg, n - 1, k);
    } else if k != RateKey(e.name, Rx) && k != RateKey(e.name, Tx) {
      assert e.name in prior by { PriorOf(prior, e); }
      var key := CounterKeyOf(NetPrefix(e.name), FAULTS, prior[e.name].faults, e.faults, dt, k);
      assert e in m.network && key in FAULTS;
    } else {
      assert e in m.network;
    }
  }

  lemma {:induction false} DiskRatesAreDerivable(p: Sample, m: Sample, cfg: Settings, n: nat, k: string)
    requires p.at < m.at && n <= |m.disks|
    requires k in DiskRates(DisksByName(p.disks), m.disks[..n], m.at - p.at)
    ensures Derivable(p, m, cfg, k)
  {
    hide CounterRates, DisksByName, DiskPrefix, Count;
    var prior, disks, dt := DisksByName(p.disks), m.disks, m.at - p.at;
    var d := disks[n - 1];
    assert disks[..n][..n - 1] == disks[..n - 1];
    if k in DiskRates(prior, disks[..n - 1], dt) {
      DiskRatesAreDerivable(p, m, cfg, n - 1, k);
    } else {
      var key := CounterKeyOf(DiskPrefix(d.name), IO, prior[d.name].counters, d.counters, dt, k);
      assert d in m.disks && key in IO;
    }
  }

  /** Nothing else is derived: every value is a reading of the report itself or one of
      those series, and these only without a gap and within one boot. */
  lemma NothingElseIsDerived(m: Sample, p: Latest, cfg: Settings, k: string)
    requires p.sample.at < m.at && DistinctNames(m.network)
    requires k in Derive(m, Some(p), cfg).values && k !in m.gauges
    ensures !Derive(m, Some(p), cfg).gap && p.sample.boot == m.boot && Derivable(p.sample, m, cfg, k)
  {
    FlagsAreExact(m, Some(p), cfg);
    ValuesOf(m, p, cfg);
    var q, net, dt := p.sample, m.network, m.at - p.sample.at;
    hide Rates, DiskRates, Aggregated, ByName, DisksByName, Contiguous, DistinctNames, Totalled, Derivable, Values;
    hide Derive;
    assert !IsGap(dt, cfg);
    ValueSources(q, m, cfg, k);
    if k in Rates(ByName(q.network), net, dt) {
      assert net[..|net|] == net;
      RatesAreDerivable(q, m, cfg, |net|, k);
    } else if k in DiskRates(DisksByName(q.disks), m.disks, dt) {
      assert m.disks[..|m.disks|] == m.disks;
      DiskRatesAreDerivable(q, m, cfg, |m.disks|, k);
    } else {
      assert net[..|net|] == net;
      AggregateCounts(q, m, cfg, |net|);
      TotalIsDerivable(q, m, cfg, k);
    }
  }

  lemma ValuesOf(m: Sample, p: Latest, cfg: Settings)
    requires p.sample.at < m.at && p.sample.boot == m.boot
    ensures Derive(m, Some(p), cfg).values == Values(p.sample, m, cfg)
  {
    hide Values, Deltas, Breaks;
  }

  /** Where a value comes from. */
  lemma ValueSources(p: Sample, m: Sample, cfg: Settings, k: string)
    requires p.at < m.at && !IsGap(m.at - p.at, cfg) && k in Values(p, m, cfg) && k !in m.gauges
    ensures var prior, dt := ByName(p.network), m.at - p.at;
      || k in Rates(prior, m.network, dt) || k in DiskRates(DisksByName(p.disks), m.disks, dt)
      || (k in {"rx", "tx"} && Aggregated(prior, m.network, dt, cfg).count > 0)
  {
    hide Rates, DiskRates, Aggregated, ByName, DisksByName, IsGap;
  }

  lemma TotalIsDerivable(p: Sample, m: Sample, cfg: Settings, k: string)
    requires k == "rx" || k == "tx"
    requires exists i :: 0 <= i < |m.network| && Totalled(p, m, cfg, i)
    ensures Derivable(p, m, cfg, k)
  {
    hide Totalled, Contiguous;
    var i :| 0 <= i < |m.network| && Totalled(p, m, cfg, i);
    assert k == TotalKey(if k == "rx" then Rx else Tx);
  }

  lemma {:induction false} NamedDisk(disks: seq<Disk>, i: nat)
    requires DistinctDisks(disks) && i < |disks|
    ensures disks[i].name in DisksByName(disks) && DisksByName(disks)[disks[i].name] == disks[i]
  {
    var most := disks[..|disks| - 1];
    if i < |most| { NamedDisk(most, i); }
  }

  lemma DiskRateGivesBack(m: Sample, p: Latest, cfg: Settings, i: nat, was: Disk, key: string)
    requires p.sample.at < m.at && p.sample.boot == m.boot && !IsGap(m.at - p.sample.at, cfg)
    requires DistinctDisks(m.disks) && i < |m.disks| && key in IO
    requires m.disks[i].name in DisksByName(p.sample.disks) && DisksByName(p.sample.disks)[m.disks[i].name] == was
    requires Count(was.counters, key) <= Count(m.disks[i].counters, key)
    ensures var values, k := Derive(m, Some(p), cfg).values, DiskPrefix(m.disks[i].name) + key;
      && k in values
      && GivesBack(values[k], m.at - p.sample.at, Count(m.disks[i].counters, key) - Count(was.counters, key))
  {
    DiskRatesMatchCounters(m, p, cfg, i, key);
    hide Derive, DistinctDisks, DisksByName, Count, IsGap, DiskPrefix;
  }

  /** A disk in both reports: without a gap, each counter of it that did not decrease has a
      rate that over the elapsed time gives back its increase. */
  lemma DiskRatesExactly(m: Sample, p: Latest, cfg: Settings, i: nat, j: nat, key: string)
    requires p.sample.at < m.at && p.sample.boot == m.boot && DistinctDisks(m.disks) && DistinctDisks(p.sample.disks)
    requires m.at - p.sample.at <= 10 * SECOND || m.at - p.sample.at <= cfg.interval * 3 * SECOND
    requires i < |m.disks| && j < |p.sample.disks| && m.disks[i].name == p.sample.disks[j].name
    requires key in {"read", "write", "readIOPS", "writeIOPS"}
    requires Count(p.sample.disks[j].counters, key) <= Count(m.disks[i].counters, key)
    ensures var values, k := Derive(m, Some(p), cfg).values, "disk:" + m.disks[i].name + ":" + key;
      && k in values
      && GivesBack(values[k], m.at - p.sample.at,
                   Count(m.disks[i].counters, key) - Count(p.sample.disks[j].counters, key))
  {
    NamedDisk(p.sample.disks, j);
    assert !IsGap(m.at - p.sample.at, cfg) && key in IO;
    hide Derive, GivesBack, DisksByName, DistinctDisks, Count, IsGap;
    DiskRateGivesBack(m, p, cfg, i, p.sample.disks[j], key);
  }
}
