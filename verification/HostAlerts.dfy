/** When each alert of a host is notified, in terms of what an evaluation sees and of the
    states before it. */
module HostAlerts {
  import opened Basics
  import opened Calendar
  import opened Alerts

  /** A condition that began at `since`, and was observed again without a pause of over
      15 s, has lasted; one that begins now has lasted for no time. */
  predicate Lasted(since: Option<int>, observed: Option<int>, now: int, need: int) {
    if since.None? || (observed.Some? && now - observed.value > 15 * SECOND) then need <= 0
    else now - since.value >= need
  }

  /** The alert triggers exactly when it is inactive, its condition has lasted and the
      cooldown is over; it recovers exactly when it is active and has been calm; and
      nothing else changes whether it is active. */
  ghost predicate Notifies(before: States, v: Vitals, r: Rules, states: States, changes: map<string, Change>,
                           key: string, alarming: bool, calm: bool, hold: int) {
    var s := StateOf(before, key);
    && key in changes && key in states
    && (changes[key] == Trigger <==>
        && alarming && !s.active && Lasted(s.since, s.lastObserved, v.now, hold)
        && (s.lastNotified.None? || v.now - s.lastNotified.value >= r.cooldown))
    && (changes[key] == Recovery <==>
        calm && s.active && Lasted(s.recoverySince, s.lastObserved, v.now, r.recovery))
    && states[key].active == (changes[key] == Trigger || (s.active && changes[key] != Recovery))
  }

  lemma KeyNotifies(before: States, v: Vitals, r: Rules, states: States, changes: map<string, Change>, key: string,
                    alarming: bool, calm: bool, hold: int)
    requires Evaluation(before, v, r, states, changes) && Evaluated(v, key)
    requires var p := ProbeOf(v, r, key);
      && alarming == (p.o.known && p.o.trigger) && calm == (p.o.known && p.o.recover)
      && p.o.at == v.now && p.t == Timing(hold, r.recovery, r.cooldown)
    ensures Notifies(before, v, r, states, changes, key, alarming, calm, hold)
  {
    assert (states[key], changes[key]) == Next(before, v, r, key);
    hide ProbeOf, Evaluated;
  }

  /** The host is neither muted nor silent. */
  predicate Heard(v: Vitals) {
    v.online && !v.muted
  }

  /** The offline alert goes by the age of the last current report, and recovers only while
      the host is online. */
  lemma OfflineAlertExactly(before: States, v: Vitals, r: Rules, states: States, changes: map<string, Change>)
    requires Evaluation(before, v, r, states, changes)
    ensures Notifies(before, v, r, states, changes, "agent_offline",
                     !v.muted && v.age.Some? && v.age.value >= r.grace, !v.muted && v.age.Some? && v.online, 0)
  {
    KeyNotifies(before, v, r, states, changes, "agent_offline",
                !v.muted && v.age.Some? && v.age.value >= r.grace, !v.muted && v.age.Some? && v.online, 0);
  }

  /** A reading at or above a limit that is set, and one at or below the limit less the
      hysteresis, or at zero. */
  predicate High(reading: Option<real>, limit: real) {
    reading.Some? && limit > 0.0 && reading.value >= limit
  }

  predicate Low(reading: Option<real>, limit: real, hysteresis: real) {
    && reading.Some? && limit > 0.0
    && (reading.value <= limit - hysteresis || reading.value <= 0.0)
  }

  lemma ProcessorAlertExactly(before: States, v: Vitals, r: Rules, states: States, changes: map<string, Change>)
    requires Evaluation(before, v, r, states, changes)
    ensures Notifies(before, v, r, states, changes, "cpu_high",
                     Heard(v) && High(v.cpu, r.cpu), Heard(v) && Low(v.cpu, r.cpu, r.hysteresis), r.duration)
  {
    KeyNotifies(before, v, r, states, changes, "cpu_high",
                Heard(v) && High(v.cpu, r.cpu), Heard(v) && Low(v.cpu, r.cpu, r.hysteresis), r.duration);
  }

  lemma MemoryAlertExactly(before: States, v: Vitals, r: Rules, states: States, changes: map<string, Change>)
    requires Evaluation(before, v, r, states, changes)
    ensures Notifies(before, v, r, states, changes, "memory_high",
                     Heard(v) && High(v.memory, r.memory), Heard(v) && Low(v.memory, r.memory, r.hysteresis),
                     r.duration)
  {
    KeyNotifies(before, v, r, states, changes, "memory_high",
                Heard(v) && High(v.memory, r.memory), Heard(v) && Low(v.memory, r.memory, r.hysteresis), r.duration);
  }

  /** Each reported mount has an alert of its own, and no other mount has one. */
  lemma DiskAlertsExactly(before: States, v: Vitals, r: Rules, states: States, changes: map<string, Change>,
                          mount: string)
    requires Evaluation(before, v, r, states, changes)
    ensures var key := "disk_high:" + mount;
      if mount in v.mounts then
        Notifies(before, v, r, states, changes, key, Heard(v) && High(Some(v.mounts[mount]), r.disk),
                 Heard(v) && Low(Some(v.mounts[mount]), r.disk, r.hysteresis), r.duration)
      else key !in changes && key !in states
  {
    DiskKeys(mount, mount);
    FixedKeys(mount);
    if mount in v.mounts {
      DiskProbe(v, r, mount);
      hide ProbeOf, Evaluated, Evaluation;
      KeyNotifies(before, v, r, states, changes, DiskKey(mount), Heard(v) && High(Some(v.mounts[mount]), r.disk),
                  Heard(v) && Low(Some(v.mounts[mount]), r.disk, r.hysteresis), r.duration);
    }
  }

  /** The quota alert is there while a quota is set, and goes by the traffic used. */
  lemma QuotaAlertExactly(before: States, v: Vitals, r: Rules, states: States, changes: map<string, Change>)
    requires Evaluation(before, v, r, states, changes)
    ensures var key := "traffic_quota";
      if v.quota > 0 then
        Notifies(before, v, r, states, changes, key, Heard(v) && v.used >= v.quota, Heard(v) && v.used < v.quota, 0)
      else key !in changes && key !in states
  {
    NoDisk("traffic_quota");
    if v.quota > 0 {
      KeyNotifies(before, v, r, states, changes, "traffic_quota", Heard(v) && v.used >= v.quota,
                  Heard(v) && v.used < v.quota, 0);
    }
  }

  lemma NoDisk(key: string)
    requires key == "traffic_quota"
    ensures !(DiskKey("") <= key)
  {
    assert DiskKey("")[0] == 'd' && key[0] == 't';
  }

  /** There are no other alerts. */
  lemma NoOtherAlerts(before: States, v: Vitals, r: Rules, states: States, changes: map<string, Change>, key: string)
    requires Evaluation(before, v, r, states, changes) && (key in states || key in changes)
    ensures key in {"agent_offline", "cpu_high", "memory_high", "traffic_quota"}
      || exists mount :: mount in v.mounts && key == "disk_high:" + mount
  {
    DiskKeys("", key);
    if DiskKey("") <= key && key[10..] in v.mounts { assert key == "disk_high:" + key[10..]; }
  }
}
