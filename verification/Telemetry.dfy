/** What one report says, and what the server derives from it and the report before
    it: byte deltas and rates that never bridge a reboot, a re-created interface or
    a counter that went backwards. Readings are exact reals. */
module Telemetry {
  import opened Basics
  import opened Calendar
  import opened Traffic

  /** Counters by the name of the series they feed; a counter that is not reported is 0. */
  type Counters = map<string, nat>

  datatype Interface = Interface(name: string, index: nat, rx: nat, tx: nat, primary: bool, faults: Counters)
  datatype Disk = Disk(name: string, counters: Counters)
  datatype Check = Check(target: string, kind: string, success: bool, unavailable: bool, latency: real)
  datatype Sample = Sample(agent: string, boot: string, session: string, sequence: nat, at: int,
                           gauges: map<string, real>, network: seq<Interface>, disks: seq<Disk>, checks: seq<Check>)
  datatype Settings = Settings(agent: string, interval: nat, interfaces: seq<string>, excluded: seq<string>,
                               checks: set<(string, string)>, paused: bool, zone: Zone, billingDay: int)
  datatype Latest = Latest(sample: Sample, values: map<string, real>, traffic: Totals, reset: bool, gap: bool)

  /** Interfaces by name; a later entry replaces an earlier one. */
  function ByName(net: seq<Interface>): map<string, Interface> {
    if |net| == 0 then map[]
    else
      var last := net[|net| - 1];
      ByName(net[..|net| - 1])[last.name := last]
  }

  /** Validation admits a report only when its interface names are distinct. */
  ghost predicate DistinctNames(net: seq<Interface>) {
    forall i, j :: 0 <= i < j < |net| ==> net[i].name != net[j].name
  }

  lemma {:induction false} ByNameHas(net: seq<Interface>, name: string)
    ensures name in ByName(net) <==> exists i :: 0 <= i < |net| && net[i].name == name
    ensures name in ByName(net) ==> ByName(net)[name] in net && ByName(net)[name].name == name
  {
    if |net| > 0 {
      var most := net[..|net| - 1];
      ByNameHas(most, name);
      if name in ByName(most) {
        var i :| 0 <= i < |most| && most[i].name == name;
        assert net[i].name == name;
      }
      assert forall i :: 0 <= i < |net| && net[i].name == name ==> i == |net| - 1 || most[i].name == name;
    }
  }

  predicate Continues(prior: map<string, Interface>, n: Interface) {
    && n.name in prior
    && prior[n.name].index == n.index
    && prior[n.name].rx <= n.rx
    && prior[n.name].tx <= n.tx
  }

  predicate Selected(n: Interface, cfg: Settings) {
    n.name !in cfg.excluded && if |cfg.interfaces| > 0 then n.name in cfg.interfaces else n.primary
  }

  function Delta(prior: map<string, Interface>, n: Interface, dt: int, gap: bool): Traffic
    requires Continues(prior, n) && dt > 0
  {
    var rx, tx := n.rx - prior[n.name].rx, n.tx - prior[n.name].tx;
    if gap then Traffic(rx, tx, 0.0, 0.0) else Traffic(rx, tx, PerSecond(rx, dt), PerSecond(tx, dt))
  }

  function PerSecond(bytes: nat, dt: int): real
    requires dt > 0
  {
    bytes as real * SECOND as real / dt as real
  }

  function Deltas(prior: map<string, Interface>, net: seq<Interface>, dt: int, gap: bool): Totals
    requires dt > 0
  {
    var now := ByName(net);
    map name | name in now && Continues(prior, now[name]) :: Delta(prior, now[name], dt, gap)
  }

  /** Error and drop counters of an interface, and the counters of a disk. */
  const FAULTS := ["rxErrors", "txErrors", "rxDrops", "txDrops"]
  const IO := ["read", "write", "readIOPS", "writeIOPS"]

  function Count(c: Counters, key: string): nat {
    if key in c then c[key] else 0
  }

  /** Rates of the counters that did not decrease, under a common prefix. */
  function CounterRates(prefix: string, keys: seq<string>, prior: Counters, now: Counters, dt: int): map<string, real>
    requires dt > 0
  {
    if |keys| == 0 then map[]
    else
      var key, rest := keys[|keys| - 1], CounterRates(prefix, keys[..|keys| - 1], prior, now, dt);
      if Count(prior, key) <= Count(now, key)
      then rest[prefix + key := PerSecond(Count(now, key) - Count(prior, key), dt)]
      else rest
  }

  function NetPrefix(name: string): string {
    "net:" + name + ":"
  }

  function RateKey(name: string, dir: Direction): string {
    NetPrefix(name) + if dir == Rx then "rx" else "tx"
  }

  function Rates(prior: map<string, Interface>, net: seq<Interface>, dt: int): map<string, real>
    requires dt > 0
  {
    if |net| == 0 then map[]
    else
      var n, rest := net[|net| - 1], Rates(prior, net[..|net| - 1], dt);
      if Continues(prior, n) then
        var t := Delta(prior, n, dt, false);
        rest[RateKey(n.name, Rx) := t.rxPeak][RateKey(n.name, Tx) := t.txPeak]
          + CounterRates(NetPrefix(n.name), FAULTS, prior[n.name].faults, n.faults, dt)
      else rest
  }

  /** Disks by name; a later entry replaces an earlier one. */
  function DisksByName(disks: seq<Disk>): map<string, Disk> {
    if |disks| == 0 then map[]
    else
      var last := disks[|disks| - 1];
      DisksByName(disks[..|disks| - 1])[last.name := last]
  }

  function DiskPrefix(name: string): string {
    "disk:" + name + ":"
  }

  function DiskRates(prior: map<string, Disk>, disks: seq<Disk>, dt: int): map<string, real>
    requires dt > 0
  {
    if |disks| == 0 then map[]
    else
      var d, rest := disks[|disks| - 1], DiskRates(prior, disks[..|disks| - 1], dt);
      if d.name in prior
      then rest + CounterRates(DiskPrefix(d.name), IO, prior[d.name].counters, d.counters, dt)
      else rest
  }

  datatype Aggregate = Aggregate(count: nat, rx: real, tx: real)

  function Aggregated(prior: map<string, Interface>, net: seq<Interface>, dt: int, cfg: Settings): Aggregate
    requires dt > 0
  {
    if |net| == 0 then Aggregate(0, 0.0, 0.0)
    else
      var n, a := net[|net| - 1], Aggregated(prior, net[..|net| - 1], dt, cfg);
      if Continues(prior, n) && Selected(n, cfg) then
        var t := Delta(prior, n, dt, false);
        Aggregate(a.count + 1, a.rx + t.rxPeak, a.tx + t.txPeak)
      else a
  }

  predicate IsGap(dt: int, cfg: Settings) {
    dt > SECOND * if cfg.interval * 3 < 10 then 10 else cfg.interval * 3
  }

  function Readings(prior: map<string, Interface>, net: seq<Interface>, dt: int, cfg: Settings,
                    gauges: map<string, real>): map<string, real>
    requires dt > 0
  {
    if IsGap(dt, cfg) then gauges
    else
      var a := Aggregated(prior, net, dt, cfg);
      var v := gauges + Rates(prior, net, dt);
      if a.count > 0 then v["rx" := a.rx]["tx" := a.tx] else v
  }

  /** All values derived from two reports of one boot. */
  function Values(p: Sample, m: Sample, cfg: Settings): map<string, real>
    requires p.at < m.at
  {
    var dt := m.at - p.at;
    var v := Readings(ByName(p.network), m.network, dt, cfg, m.gauges);
    if IsGap(dt, cfg) then v else v + DiskRates(DisksByName(p.disks), m.disks, dt)
  }

  function Derive(m: Sample, previous: Option<Latest>, cfg: Settings): Latest {
    if previous.None? || m.at <= previous.value.sample.at then Latest(m, m.gauges, map[], false, false)
    else
      var p := previous.value.sample;
      var dt := m.at - p.at;
      if p.boot != m.boot then Latest(m, m.gauges, map[], true, IsGap(dt, cfg))
      else
        var prior := ByName(p.network);
        Latest(m, Values(p, m, cfg), Deltas(prior, m.network, dt, IsGap(dt, cfg)),
               Breaks(prior, m.network), IsGap(dt, cfg))
  }

  lemma DeltasGrow(prior: map<string, Interface>, net: seq<Interface>, i: nat, dt: int, gap: bool)
    requires i < |net| && dt > 0 && DistinctNames(net)
    ensures Deltas(prior, net[..i + 1], dt, gap)
         == if Continues(prior, net[i])
            then Deltas(prior, net[..i], dt, gap)[net[i].name := Delta(prior, net[i], dt, gap)]
            else Deltas(prior, net[..i], dt, gap)
  {
    hide Delta;
    assert net[..i + 1][..i] == net[..i];
    ByNameHas(net[..i], net[i].name);
  }

  lemma RatesGrow(gauges: map<string, real>, prior: map<string, Interface>, net: seq<Interface>, i: nat, dt: int)
    requires i < |net| && dt > 0
    ensures gauges + Rates(prior, net[..i + 1], dt)
         == if Continues(prior, net[i]) then
              var t := Delta(prior, net[i], dt, false);
              (gauges + Rates(prior, net[..i], dt))
                [RateKey(net[i].name, Rx) := t.rxPeak][RateKey(net[i].name, Tx) := t.txPeak]
                + CounterRates(NetPrefix(net[i].name), FAULTS, prior[net[i].name].faults, net[i].faults, dt)
            else gauges + Rates(prior, net[..i], dt)
  {
    hide Delta, RateKey, NetPrefix, CounterRates;
    assert net[..i + 1][..i] == net[..i];
  }

  lemma AggregatedGrow(prior: map<string, Interface>, net: seq<Interface>, i: nat, dt: int, cfg: Settings)
    requires i < |net| && dt > 0
    ensures Aggregated(prior, net[..i + 1], dt, cfg)
         == var a := Aggregated(prior, net[..i], dt, cfg);
            if Continues(prior, net[i]) && Selected(net[i], cfg) then
              var t := Delta(prior, net[i], dt, false);
              Aggregate(a.count + 1, a.rx + t.rxPeak, a.tx + t.txPeak)
            else a
  {
    hide Delta, Selected;
    assert net[..i + 1][..i] == net[..i];
  }

  predicate Breaks(prior: map<string, Interface>, net: seq<Interface>) {
    exists n :: n in net && !Continues(prior, n)
  }

  /** The inner loop over named counters. */
  method AddCounters(values: map<string, real>, prefix: string, keys: seq<string>, prior: Counters, now: Counters,
                     dt: int)
    returns (out: map<string, real>)
    requires dt > 0
    ensures out == values + CounterRates(prefix, keys, prior, now, dt)
  {
    hide PerSecond, Count;
    out := values;
    for i := 0 to |keys|
      invariant out == values + CounterRates(prefix, keys[..i], prior, now, dt)
    {
      assert keys[..i + 1][..i] == keys[..i];
      var before, after := Count(prior, keys[i]), Count(now, keys[i]);
      if before <= after { out := out[prefix + keys[i] := PerSecond(after - before, dt)]; }
    }
    assert keys[..|keys|] == keys;
  }

  /** The loop of the source over the reported disks. */
  method CompareDisks(prior: map<string, Disk>, disks: seq<Disk>, dt: int, values: map<string, real>)
    returns (out: map<string, real>)
    requires dt > 0
    ensures out == values + DiskRates(prior, disks, dt)
  {
    hide CounterRates, DiskPrefix;
    out := values;
    for i := 0 to |disks|
      invariant out == values + DiskRates(prior, disks[..i], dt)
    {
      assert disks[..i + 1][..i] == disks[..i];
      var d := disks[i];
      if d.name in prior { out := AddCounters(out, DiskPrefix(d.name), IO, prior[d.name].counters, d.counters, dt); }
    }
    assert disks[..|disks|] == disks;
  }

  /** The loop of the source over the reported interfaces. */
  method CompareInterfaces(prior: map<string, Interface>, net: seq<Interface>, dt: int, cfg: Settings,
                           gauges: map<string, real>)
    returns (values: map<string, real>, traffic: Totals, reset: bool)
    requires DistinctNames(net) && dt > 0
    ensures values == Readings(prior, net, dt, cfg, gauges)
    ensures traffic == Deltas(prior, net, dt, IsGap(dt, cfg))
    ensures reset <==> Breaks(prior, net)
  {
    hide Continues, Delta, Deltas, Rates, Aggregated, RateKey, Selected, IsGap, DistinctNames, NetPrefix, CounterRates;
    var gap := IsGap(dt, cfg);
    values, traffic, reset := gauges, map[], false;
    var a := Aggregate(0, 0.0, 0.0);
    Nothing(gauges, prior, net, dt, gap, cfg);
    for i := 0 to |net|
      invariant traffic == Deltas(prior, net[..i], dt, gap)
      invariant values == if gap then gauges else gauges + Rates(prior, net[..i], dt)
      invariant a == if gap then Aggregate(0, 0.0, 0.0) else Aggregated(prior, net[..i], dt, cfg)
      invariant reset <==> Breaks(prior, net[..i])
    {
      var n := net[i];
      assert net[..i + 1] == net[..i] + [n];
      DeltasGrow(prior, net, i, dt, gap);
      RatesGrow(gauges, prior, net, i, dt);
      AggregatedGrow(prior, net, i, dt, cfg);
      if !Continues(prior, n) {
        reset := true;
      } else {
        var t := Delta(prior, n, dt, gap);
        if !gap {
          values := values[RateKey(n.name, Rx) := t.rxPeak][RateKey(n.name, Tx) := t.txPeak];
          assert n.name in prior by { PriorOf(prior, n); }
          values := AddCounters(values, NetPrefix(n.name), FAULTS, prior[n.name].faults, n.faults, dt);
          if Selected(n, cfg) {
            a := Aggregate(a.count + 1, a.rx + t.rxPeak, a.tx + t.txPeak);
          }
        }
        traffic := traffic[n.name := t];
      }
    }
    assert net[..|net|] == net;
    if a.count > 0 { values := values["rx" := a.rx]["tx" := a.tx]; }
  }

  lemma PriorOf(prior: map<string, Interface>, n: Interface)
    requires Continues(prior, n)
    ensures n.name in prior
  {}

  lemma Nothing(gauges: map<string, real>, prior: map<string, Interface>, net: seq<Interface>, dt: int, gap: bool,
                cfg: Settings)
    requires dt > 0
    ensures Deltas(prior, net[..0], dt, gap) == map[]
    ensures gauges + Rates(prior, net[..0], dt) == gauges
    ensures Aggregated(prior, net[..0], dt, cfg) == Aggregate(0, 0.0, 0.0)
  {}

  method DeriveMetrics(m: Sample, previous: Option<Latest>, cfg: Settings) returns (latest: Latest)
    requires DistinctNames(m.network)
    ensures latest == Derive(m, previous, cfg)
  {
    hide Readings, Deltas, IsGap, Breaks, DiskRates;
    if previous.None? { return Latest(m, m.gauges, map[], false, false); }
    var p := previous.value.sample;
    var dt := m.at - p.at;
    if dt <= 0 { return Latest(m, m.gauges, map[], false, false); }
    if p.boot != m.boot { return Latest(m, m.gauges, map[], true, IsGap(dt, cfg)); }
    var values, traffic, reset := CompareInterfaces(ByName(p.network), m.network, dt, cfg, m.gauges);
    if !IsGap(dt, cfg) { values := CompareDisks(DisksByName(p.disks), m.disks, dt, values); }
    latest := Latest(m, values, traffic, reset, IsGap(dt, cfg));
  }

  // ---- telescoping over the chain of samples that became the latest one ----

  function Counter(s: Sample, name: string, dir: Direction): nat {
    var t := ByName(s.network);
    if name !in t then 0 else match dir case Rx => t[name].rx case Tx => t[name].tx
  }

  /** No reboot, re-index, disappearance or decrease between two neighbours. */
  predicate Contiguous(p: Sample, m: Sample, name: string) {
    var was, now := ByName(p.network), ByName(m.network);
    && p.boot == m.boot
    && name in was && name in now && was[name].index == now[name].index
    && Counter(p, name, Rx) <= Counter(m, name, Rx) && Counter(p, name, Tx) <= Counter(m, name, Tx)
  }

  ghost predicate Ascending(chain: seq<Sample>) {
    forall i, j :: 0 <= i < j < |chain| ==> chain[i].at < chain[j].at
  }

  lemma DeltaIsCounterDifference(m: Sample, p: Latest, cfg: Settings, name: string, dir: Direction)
    requires p.sample.at < m.at
    ensures var bytes := Bytes(At(Derive(m, Some(p), cfg).traffic, name), dir);
      if Contiguous(p.sample, m, name) then bytes == Counter(m, name, dir) - Counter(p.sample, name, dir)
      else bytes == 0
  {
    hide PerSecond, Values, IsGap;
    ByNameHas(m.network, name);
    ByNameHas(p.sample.network, name);
  }

  lemma RateKeyIsInjective(a: string, d: Direction, b: string, e: Direction)
    ensures RateKey(a, d) == RateKey(b, e) ==> a == b && d == e
    ensures RateKey(a, d) != "rx" && RateKey(a, d) != "tx"
    ensures |RateKey(a, d)| > 0 && RateKey(a, d)[0] == 'n' && RateKey(a, d)[|RateKey(a, d)| - 1] == 'x'
  {
    var k, l := RateKey(a, d), RateKey(b, e);
    assert k[0] == 'n' && k[|k| - 2] == (if d == Rx then 'r' else 't') && l[|l| - 2] == (if e == Rx then 'r' else 't');
    assert k[4..4 + |a|] == a && l[4..4 + |b|] == b;
  }

  lemma PrefixCancels(prefix: string, a: string, b: string)
    ensures prefix + a == prefix + b <==> a == b
  {
    assert (prefix + a)[|prefix|..] == a && (prefix + b)[|prefix|..] == b;
  }

  lemma {:induction false} CounterRateOf(prefix: string, keys: seq<string>, prior: Counters, now: Counters, dt: int,
                                         key: string)
    requires dt > 0
    ensures var rates := CounterRates(prefix, keys, prior, now, dt);
      && (prefix + key in rates <==> key in keys && Count(prior, key) <= Count(now, key))
      && (prefix + key in rates ==> rates[prefix + key] == PerSecond(Count(now, key) - Count(prior, key), dt))
  {
    hide PerSecond, Count;
    if |keys| > 0 {
      var most, last := keys[..|keys| - 1], keys[|keys| - 1];
      CounterRateOf(prefix, most, prior, now, dt, key);
      assert keys == most + [last];
      PrefixCancels(prefix, key, last);
    }
  }

  lemma {:induction false} CounterKeys(prefix: string, keys: seq<string>, prior: Counters, now: Counters, dt: int,
                                       k: string)
    requires dt > 0 && k in CounterRates(prefix, keys, prior, now, dt)
    ensures exists key :: key in keys && k == prefix + key
  {
    hide PerSecond, Count;
    var most, last := keys[..|keys| - 1], keys[|keys| - 1];
    assert keys == most + [last];
    if k in CounterRates(prefix, most, prior, now, dt) {
      CounterKeys(prefix, most, prior, now, dt, k);
      var key :| key in most && k == prefix + key;
      assert key in keys;
    } else {
      assert last in keys && k == prefix + last;
    }
  }

  lemma FaultKeys(prefix: string, prior: Counters, now: Counters, dt: int, k: string)
    requires dt > 0 && k in CounterRates(prefix, FAULTS, prior, now, dt)
    ensures |k| > 0 && k[|k| - 1] == 's'
  {
    CounterKeys(prefix, FAULTS, prior, now, dt, k);
    hide CounterRates;
    var key :| key in FAULTS && k == prefix + key;
    assert key == "rxErrors" || key == "txErrors" || key == "rxDrops" || key == "txDrops";
    assert k[|k| - 1] == key[|key| - 1];
  }

  lemma {:induction false} DiskKeys(prior: map<string, Disk>, disks: seq<Disk>, dt: int, k: string)
    requires dt > 0 && k in DiskRates(prior, disks, dt)
    ensures |k| > 0 && k[0] == 'd'
  {
    hide CounterRates;
    if |disks| > 0 {
      var most, d := disks[..|disks| - 1], disks[|disks| - 1];
      if k in DiskRates(prior, most, dt) {
        DiskKeys(prior, most, dt, k);
      } else {
        CounterKeys(DiskPrefix(d.name), IO, prior[d.name].counters, d.counters, dt, k);
      }
    }
  }

  lemma {:induction false} RateOf(prior: map<string, Interface>, net: seq<Interface>, dt: int, name: string,
                                  dir: Direction)
    requires dt > 0 && DistinctNames(net) && name in ByName(net) && Continues(prior, ByName(net)[name])
    ensures RateKey(name, dir) in Rates(prior, net, dt)
    ensures Rates(prior, net, dt)[RateKey(name, dir)]
        == PerSecond(Bytes(Delta(prior, ByName(net)[name], dt, false), dir), dt)
  {
    hide RateKey, PerSecond, CounterRates, NetPrefix;
    var most, n := net[..|net| - 1], net[|net| - 1];
    RateKeyIsInjective(n.name, Rx, n.name, Tx);
    RateKeyIsInjective(name, dir, n.name, Rx);
    RateKeyIsInjective(name, dir, n.name, Tx);
    if Continues(prior, n) {
      var more := CounterRates(NetPrefix(n.name), FAULTS, prior[n.name].faults, n.faults, dt);
      assert RateKey(name, dir) !in more by {
        if RateKey(name, dir) in more {
          FaultKeys(NetPrefix(n.name), prior[n.name].faults, n.faults, dt, RateKey(name, dir));
        }
      }
    }
    if n.name != name { RateOf(prior, most, dt, name, dir); }
  }

  // ---- error, drop and disk rates ----

  ghost predicate NoColon(key: string) {
    forall c :: c in key ==> c != ':'
  }

  /** The last colon of a series' key ends its prefix. */
  lemma LastColon(a: string, k: string, b: string, l: string)
    requires NoColon(k) && NoColon(l) && a + ":" + k == b + ":" + l
    ensures a == b && k == l
  {
    var s, t := a + ":" + k, b + ":" + l;
    assert s[|a|] == ':' && t[|b|] == ':';
    assert forall i :: |a| < i < |s| ==> s[i] in k;
    assert forall i :: |b| < i < |t| ==> t[i] in l;
    assert |a| == |b|;
    assert s[..|a|] == a && t[..|b|] == b && s[|a| + 1..] == k && t[|b| + 1..] == l;
  }

  lemma SeriesHaveNoColon(key: string)
    ensures key in FAULTS || key in IO || key == "rx" || key == "tx" ==> NoColon(key)
  {}

  lemma OtherDisk(prior: Counters, now: Counters, dt: int, a: string, b: string, key: string)
    requires dt > 0 && a != b && key in IO
    ensures DiskPrefix(b) + key !in CounterRates(DiskPrefix(a), IO, prior, now, dt)
  {
    hide CounterRates, NoColon;
    var k := DiskPrefix(b) + key;
    if k in CounterRates(DiskPrefix(a), IO, prior, now, dt) {
      CounterKeys(DiskPrefix(a), IO, prior, now, dt, k);
      var other :| other in IO && k == DiskPrefix(a) + other;
      SeriesHaveNoColon(key);
      SeriesHaveNoColon(other);
      assert k == "disk:" + b + ":" + key == "disk:" + a + ":" + other;
      LastColon("disk:" + a, other, "disk:" + b, key);
      PrefixCancels("disk:", a, b);
    }
  }

  lemma OtherInterface(prior: Counters, now: Counters, dt: int, a: string, b: string, key: string)
    requires dt > 0 && a != b && key in FAULTS
    ensures NetPrefix(b) + key !in CounterRates(NetPrefix(a), FAULTS, prior, now, dt)
  {
    hide CounterRates, NoColon;
    var k := NetPrefix(b) + key;
    if k in CounterRates(NetPrefix(a), FAULTS, prior, now, dt) {
      CounterKeys(NetPrefix(a), FAULTS, prior, now, dt, k);
      var other :| other in FAULTS && k == NetPrefix(a) + other;
      SeriesHaveNoColon(key);
      SeriesHaveNoColon(other);
      assert k == "net:" + b + ":" + key == "net:" + a + ":" + other;
      LastColon("net:" + a, other, "net:" + b, key);
      PrefixCancels("net:", a, b);
    }
  }

  ghost predicate DistinctDisks(disks: seq<Disk>) {
    forall i, j :: 0 <= i < j < |disks| ==> disks[i].name != disks[j].name
  }

  lemma {:induction false} DiskRateOf(prior: map<string, Disk>, disks: seq<Disk>, dt: int, i: nat, key: string)
    requires dt > 0 && DistinctDisks(disks) && i < |disks| && disks[i].name in prior && key in IO
    requires Count(prior[disks[i].name].counters, key) <= Count(disks[i].counters, key)
    ensures var k, rates := DiskPrefix(disks[i].name) + key, DiskRates(prior, disks, dt);
      && k in rates
      && rates[k] == PerSecond(Count(disks[i].counters, key) - Count(prior[disks[i].name].counters, key), dt)
  {
    hide CounterRates, PerSecond, DiskPrefix, Count;
    var most, d := disks[..|disks| - 1], disks[|disks| - 1];
    if i == |disks| - 1 {
      CounterRateOf(DiskPrefix(d.name), IO, prior[d.name].counters, d.counters, dt, key);
    } else {
      DiskRateOf(prior, most, dt, i, key);
      if d.name in prior { OtherDisk(prior[d.name].counters, d.counters, dt, d.name, disks[i].name, key); }
    }
  }

  lemma RateOrFault(name: string, other: string, dir: Direction, key: string)
    requires key in FAULTS
    ensures NetPrefix(name) + key != RateKey(other, dir)
  {
    RateKeyIsInjective(other, dir, other, dir);
    hide RateKey;
    assert key == "rxErrors" || key == "txErrors" || key == "rxDrops" || key == "txDrops";
    var k := NetPrefix(name) + key;
    assert k[|k| - 1] == key[|key| - 1] == 's';
  }

  lemma {:induction false} FaultRateOf(prior: map<string, Interface>, net: seq<Interface>, dt: int, i: nat, key: string)
    requires dt > 0 && DistinctNames(net) && i < |net| && Continues(prior, net[i]) && key in FAULTS
    requires Count(prior[net[i].name].faults, key) <= Count(net[i].faults, key)
    ensures var k, rates := NetPrefix(net[i].name) + key, Rates(prior, net, dt);
      && k in rates
      && rates[k] == PerSecond(Count(net[i].faults, key) - Count(prior[net[i].name].faults, key), dt)
  {
    hide CounterRates, PerSecond, NetPrefix, Count, RateKey;
    var most, n := net[..|net| - 1], net[|net| - 1];
    RateOrFault(net[i].name, n.name, Rx, key);
    RateOrFault(net[i].name, n.name, Tx, key);
    if i == |net| - 1 {
      CounterRateOf(NetPrefix(n.name), FAULTS, prior[n.name].faults, n.faults, dt, key);
    } else {
      FaultRateOf(prior, most, dt, i, key);
      if Continues(prior, n) { OtherInterface(prior[n.name].faults, n.faults, dt, n.name, net[i].name, key); }
    }
  }

  /** Without a gap, every disk counter that did not decrease since the report before has
      a rate that over the elapsed time gives back its increase. */
  lemma DiskRatesMatchCounters(m: Sample, p: Latest, cfg: Settings, i: nat, key: string)
    requires p.sample.at < m.at && p.sample.boot == m.boot && !IsGap(m.at - p.sample.at, cfg)
    requires DistinctDisks(m.disks) && i < |m.disks| && m.disks[i].name in DisksByName(p.sample.disks) && key in IO
    ensures var l, k, dt := Derive(m, Some(p), cfg), DiskPrefix(m.disks[i].name) + key, m.at - p.sample.at;
      var was := Count(DisksByName(p.sample.disks)[m.disks[i].name].counters, key);
      var now := Count(m.disks[i].counters, key);
      was <= now ==> k in l.values && l.values[k] * dt as real == (now - was) as real * SECOND as real
  {
    hide Readings, DiskRates, DisksByName, Deltas, Breaks, Count, PerSecond, IsGap, DiskPrefix, DistinctDisks;
    var prior, dt := DisksByName(p.sample.disks), m.at - p.sample.at;
    var was, now := Count(prior[m.disks[i].name].counters, key), Count(m.disks[i].counters, key);
    if was <= now {
      DiskRateOf(prior, m.disks, dt, i, key);
      RateTimesTime(now - was, dt);
    }
  }

  /** The same for the error and drop counters of an interface that continues. */
  lemma FaultRatesMatchCounters(m: Sample, p: Latest, cfg: Settings, i: nat, key: string)
    requires p.sample.at < m.at && p.sample.boot == m.boot && !IsGap(m.at - p.sample.at, cfg)
    requires DistinctNames(m.network) && i < |m.network| && Continues(ByName(p.sample.network), m.network[i])
    requires key in FAULTS
    ensures var l, k, dt := Derive(m, Some(p), cfg), NetPrefix(m.network[i].name) + key, m.at - p.sample.at;
      var was, now := Count(ByName(p.sample.network)[m.network[i].name].faults, key), Count(m.network[i].faults, key);
      was <= now ==> k in l.values && l.values[k] * dt as real == (now - was) as real * SECOND as real
  {
    hide DiskRates, Rates, DisksByName, ByName, Deltas, Breaks, Count, PerSecond, IsGap, DistinctNames, Aggregated;
    var prior, dt := ByName(p.sample.network), m.at - p.sample.at;
    var was, now := Count(prior[m.network[i].name].faults, key), Count(m.network[i].faults, key);
    if was <= now {
      var k := NetPrefix(m.network[i].name) + key;
      FaultRateOf(prior, m.network, dt, i, key);
      RateTimesTime(now - was, dt);
      assert k[0] == 'n' && k !in DiskRates(DisksByName(p.sample.disks), m.disks, dt) by {
        if k in DiskRates(DisksByName(p.sample.disks), m.disks, dt) {
          DiskKeys(DisksByName(p.sample.disks), m.disks, dt, k);
        }
      }
      assert |k| > 2;
    }
  }

  /** Rates agree with the recorded bytes: over the elapsed time a reported rate gives
      back the delta, and it is the peak. Across a gap there is neither rate nor peak. */
  lemma RatesMatchBytes(m: Sample, p: Latest, cfg: Settings, name: string, dir: Direction)
    requires p.sample.at < m.at && DistinctNames(m.network) && Contiguous(p.sample, m, name)
    ensures var l, dt := Derive(m, Some(p), cfg), m.at - p.sample.at;
      && name in l.traffic
      && (IsGap(dt, cfg) ==> Peak(l.traffic[name], dir) == 0.0 && l.values == m.gauges)
      && (!IsGap(dt, cfg) ==>
           && RateKey(name, dir) in l.values && Peak(l.traffic[name], dir) == l.values[RateKey(name, dir)]
           && l.values[RateKey(name, dir)] * dt as real == Bytes(l.traffic[name], dir) as real * SECOND as real)
  {
    hide RateKey, PerSecond, Readings, Rates, ByName, Breaks, DistinctNames, IsGap, DiskRates, DisksByName;
    var prior, net, dt := ByName(p.sample.network), m.network, m.at - p.sample.at;
    var disks := DisksByName(p.sample.disks);
    assert ByName(net)[name].name == name by { ByNameHas(net, name); }
    if IsGap(dt, cfg) {
      GapHasNoRates(prior, net, dt, cfg, m.gauges);
    } else {
      ReadingOf(prior, net, dt, cfg, m.gauges, name, dir);
      NotADiskRate(disks, m.disks, dt, name, dir);
    }
    RateTimesTime(Bytes(Delta(prior, ByName(net)[name], dt, false), dir), dt);
  }

  lemma NotADiskRate(prior: map<string, Disk>, disks: seq<Disk>, dt: int, name: string, dir: Direction)
    requires dt > 0
    ensures RateKey(name, dir) !in DiskRates(prior, disks, dt)
  {
    RateKeyIsInjective(name, dir, name, dir);
    hide RateKey, DiskRates;
    if RateKey(name, dir) in DiskRates(prior, disks, dt) { DiskKeys(prior, disks, dt, RateKey(name, dir)); }
  }

  lemma GapHasNoRates(prior: map<string, Interface>, net: seq<Interface>, dt: int, cfg: Settings,
                      gauges: map<string, real>)
    requires dt > 0 && IsGap(dt, cfg)
    ensures Readings(prior, net, dt, cfg, gauges) == gauges
  {}

  lemma ReadingOf(prior: map<string, Interface>, net: seq<Interface>, dt: int, cfg: Settings, gauges: map<string, real>,
                  name: string, dir: Direction)
    requires dt > 0 && !IsGap(dt, cfg) && DistinctNames(net) && name in ByName(net)
    requires Continues(prior, ByName(net)[name])
    ensures RateKey(name, dir) in Readings(prior, net, dt, cfg, gauges)
    ensures Readings(prior, net, dt, cfg, gauges)[RateKey(name, dir)]
         == PerSecond(Bytes(Delta(prior, ByName(net)[name], dt, false), dir), dt)
  {
    hide RateKey, PerSecond, Aggregated, Rates, ByName, Delta, DistinctNames, Continues;
    RateOf(prior, net, dt, name, dir);
    RateKeyIsInjective(name, dir, name, dir);
  }

  lemma RateTimesTime(bytes: nat, dt: int)
    requires dt > 0
    ensures PerSecond(bytes, dt) * dt as real == bytes as real * SECOND as real
  {}

  /** First index of the maximal contiguous stretch that ends at index `i`. */
  function StretchStart(chain: seq<Sample>, i: nat, name: string): nat
    requires i < |chain|
    ensures StretchStart(chain, i, name) <= i
  {
    if i > 0 && Contiguous(chain[i - 1], chain[i], name) then StretchStart(chain, i - 1, name) else i
  }

  lemma {:induction false} StretchIsMaximal(chain: seq<Sample>, i: nat, name: string)
    requires i < |chain|
    ensures var a := StretchStart(chain, i, name);
      && (forall k :: a < k <= i ==> Contiguous(chain[k - 1], chain[k], name))
      && (a > 0 ==> !Contiguous(chain[a - 1], chain[a], name))
  {
    hide Contiguous;
    if i > 0 && Contiguous(chain[i - 1], chain[i], name) { StretchIsMaximal(chain, i - 1, name); }
  }

  /** Sum of last minus first counter over the maximal stretches of a chain. */
  function StretchTotal(chain: seq<Sample>, name: string, dir: Direction): int
    decreases |chain|
  {
    if |chain| == 0 then 0
    else
      var last := |chain| - 1;
      var a := StretchStart(chain, last, name);
      Counter(chain[last], name, dir) - Counter(chain[a], name, dir) + StretchTotal(chain[..a], name, dir)
  }

  lemma {:induction false} StretchStartOfPrefix(chain: seq<Sample>, n: nat, i: nat, name: string)
    requires i < n <= |chain|
    ensures StretchStart(chain[..n], i, name) == StretchStart(chain, i, name)
  {
    hide Contiguous;
    if i > 0 { StretchStartOfPrefix(chain, n, i - 1, name); }
  }

  /** One more sample adds exactly the delta the server derives for it. */
  lemma {:induction false} StretchesTelescope(chain: seq<Sample>, m: Sample, p: Latest, cfg: Settings, name: string,
                                              dir: Direction)
    requires |chain| > 0 && p.sample == chain[|chain| - 1] && p.sample.at < m.at
    ensures StretchTotal(chain + [m], name, dir)
         == StretchTotal(chain, name, dir) + Bytes(At(Derive(m, Some(p), cfg).traffic, name), dir)
  {
    DeltaIsCounterDifference(m, p, cfg, name, dir);
    hide Contiguous, Counter, Derive;
    var all, n := chain + [m], |chain|;
    assert all[..n] == chain;
    StretchStartOfPrefix(all, n, n - 1, name);
    if Contiguous(chain[n - 1], m, name) {
      assert all[n - 1] == chain[n - 1] && all[n] == m;
      var a := StretchStart(all, n - 1, name);
      assert StretchStart(all, n, name) == a;
      assert all[..a] == chain[..a];
    } else {
      assert all[n - 1] == chain[n - 1] && all[n] == m;
      assert StretchStart(all, n, name) == n;
    }
  }
}
