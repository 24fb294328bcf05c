/** Alerting: the transition function, its declarative meaning over whole traces of
    observations, and the evaluation of all alert keys of a host. */
module Alerts {
  import opened Basics
  import opened Calendar

  datatype AlertState = AlertState(active: bool, since: Option<int>, recoverySince: Option<int>,
                                   lastObserved: Option<int>, lastNotified: Option<int>)
  datatype Change = Nothing | Trigger | Recovery
  datatype Observation = Observation(at: int, known: bool, trigger: bool, recover: bool)
  datatype Timing = Timing(hold: int, recovery: int, cooldown: int)

  const INITIAL := AlertState(false, None, None, None, None)
  const MAX_GAP := 15 * SECOND

  function Transition(state: AlertState, o: Observation, t: Timing): (AlertState, Change) {
    if !o.known then (state.(since := None, recoverySince := None, lastObserved := None), Nothing)
    else
      var broken := state.lastObserved.Some? && o.at - state.lastObserved.value > MAX_GAP;
      var st := (if broken then state.(since := None, recoverySince := None) else state).(lastObserved := Some(o.at));
      if !st.active then
        var idle := st.(recoverySince := None);
        if !o.trigger then (idle.(since := None), Nothing)
        else
          var since := if idle.since.None? then o.at else idle.since.value;
          var held := idle.(since := Some(since));
          if o.at - since >= t.hold && (held.lastNotified.None? || o.at - held.lastNotified.value >= t.cooldown)
          then (held.(active := true, lastNotified := Some(o.at)), Trigger)
          else (held, Nothing)
      else
        var busy := st.(since := None);
        if !o.recover then (busy.(recoverySince := None), Nothing)
        else
          var since := if busy.recoverySince.None? then o.at else busy.recoverySince.value;
          if o.at - since >= t.recovery
          then (busy.(active := false, recoverySince := None, lastNotified := Some(o.at)), Recovery)
          else (busy.(recoverySince := Some(since)), Nothing)
  }

  // ---- traces ----

  function After(h: seq<Observation>, t: Timing): AlertState {
    if |h| == 0 then INITIAL else Transition(After(h[..|h| - 1], t), h[|h| - 1], t).0
  }

  /** The notification caused by the last observation of a trace. */
  function Output(h: seq<Observation>, t: Timing): Change
    requires |h| > 0
  {
    Transition(After(h[..|h| - 1], t), h[|h| - 1], t).1
  }

  /** Index of the last observation that caused a notification, or -1. */
  function LastChange(h: seq<Observation>, t: Timing): int
    ensures -1 <= LastChange(h, t) < |h|
  {
    if |h| == 0 then -1
    else if Output(h, t) != Nothing then |h| - 1
    else LastChange(h[..|h| - 1], t)
  }

  /** An alert is active when its last notification was a trigger. */
  predicate Active(h: seq<Observation>, t: Timing) {
    var c := LastChange(h, t);
    c >= 0 && Output(h[..c + 1], t) == Trigger
  }

  predicate Favours(o: Observation, c: Change) {
    o.known && match c case Trigger => o.trigger case Recovery => o.recover case Nothing => false
  }

  /** Observations j.. to the end all favour the change, with no gap over 15 s. */
  ghost predicate Uninterrupted(h: seq<Observation>, j: int, c: Change) {
    && 0 <= j < |h|
    && (forall k :: j <= k < |h| ==> Favours(h[k], c))
    && (forall k :: j < k < |h| ==> h[k].at - h[k - 1].at <= MAX_GAP)
  }

  /** j starts the longest such suffix that begins at or after `lo`. */
  ghost predicate LongestFrom(h: seq<Observation>, lo: int, j: int, c: Change) {
    && lo <= j && Uninterrupted(h, j, c)
    && (forall i :: lo <= i && Uninterrupted(h, i, c) ==> j <= i)
  }

  function SuffixStart(h: seq<Observation>, lo: int, c: Change): Option<int> {
    var n := |h|;
    if n == 0 || n <= lo || !Favours(h[n - 1], c) then None
    else
      var before := SuffixStart(h[..n - 1], lo, c);
      if before.Some? && h[n - 1].at - h[n - 2].at <= MAX_GAP then before else Some(n - 1)
  }

  lemma UninterruptedPrefix(h: seq<Observation>, j: int, c: Change)
    requires 0 <= j < |h| - 1
    ensures Uninterrupted(h, j, c)
      <==> Uninterrupted(h[..|h| - 1], j, c) && Favours(h[|h| - 1], c) && h[|h| - 1].at - h[|h| - 2].at <= MAX_GAP
  {
    var p := h[..|h| - 1];
    if Uninterrupted(p, j, c) && Favours(h[|h| - 1], c) && h[|h| - 1].at - h[|h| - 2].at <= MAX_GAP {
      forall k | j <= k < |h| ensures Favours(h[k], c) { if k < |p| { assert p[k] == h[k]; } }
      forall k | j < k < |h| ensures h[k].at - h[k - 1].at <= MAX_GAP {
        if k < |p| { assert p[k] == h[k] && p[k - 1] == h[k - 1]; }
      }
    }
  }

  lemma {:induction false} SuffixStartIsLongest(h: seq<Observation>, lo: int, c: Change)
    requires 0 <= lo
    ensures SuffixStart(h, lo, c).None? ==> forall j :: lo <= j ==> !Uninterrupted(h, j, c)
    ensures SuffixStart(h, lo, c).Some? ==> LongestFrom(h, lo, SuffixStart(h, lo, c).value, c)
  {
    hide Favours;
    var n := |h|;
    if n > 0 {
      SuffixStartIsLongest(h[..n - 1], lo, c);
      forall j | lo <= j < n - 1
        ensures Uninterrupted(h, j, c)
          <==> Uninterrupted(h[..n - 1], j, c) && Favours(h[n - 1], c) && h[n - 1].at - h[n - 2].at <= MAX_GAP
      {
        UninterruptedPrefix(h, j, c);
      }
    }
  }

  /** What the fields of the state mean. */
  ghost predicate Meaning(h: seq<Observation>, t: Timing) {
    var st, c := After(h, t), LastChange(h, t);
    && st.active == Active(h, t)
    && st.lastNotified == (if c < 0 then None else Some(h[c].at))
    && st.lastObserved == (if |h| > 0 && h[|h| - 1].known then Some(h[|h| - 1].at) else None)
    && var start := SuffixStart(h, c + 1, if st.active then Recovery else Trigger);
      var at := if start.None? then None else if 0 <= start.value < |h| then Some(h[start.value].at) else None;
      (if st.active then st.recoverySince else st.since) == at
  }

  lemma {:induction false} SuffixStartInRange(h: seq<Observation>, lo: int, c: Change)
    ensures SuffixStart(h, lo, c).Some? ==> 0 <= SuffixStart(h, lo, c).value < |h|
  {
    if |h| > 0 { SuffixStartInRange(h[..|h| - 1], lo, c); }
  }

  lemma {:induction false} StateMeans(h: seq<Observation>, t: Timing)
    ensures Meaning(h, t)
  {
    if |h| > 0 {
      var p, o := h[..|h| - 1], h[|h| - 1];
      StateMeans(p, t);
      StepMeans(p, o, t);
      assert p + [o] == h;
    }
  }

  lemma TraceUnfolds(p: seq<Observation>, o: Observation, t: Timing)
    ensures var h, r := p + [o], Transition(After(p, t), o, t);
      && After(h, t) == r.0 && Output(h, t) == r.1
      && LastChange(h, t) == (if r.1 == Nothing then LastChange(p, t) else |p|)
      && Active(h, t) == (if r.1 == Nothing then Active(p, t) else r.1 == Trigger)
  {
    hide Transition;
    var h := p + [o];
    assert h[..|h| - 1] == p && h[..|h|] == h;
    var c := LastChange(p, t);
    if c >= 0 { assert h[..c + 1] == p[..c + 1]; }
  }

  lemma SuffixUnfolds(p: seq<Observation>, o: Observation, lo: int, c: Change)
    requires lo <= |p| + 1
    ensures var h := p + [o];
      SuffixStart(h, lo, c) ==
        (if |p| + 1 == lo || !Favours(o, c) then None
         else if SuffixStart(p, lo, c).Some? && o.at - p[|p| - 1].at <= MAX_GAP then SuffixStart(p, lo, c)
         else Some(|p|))
  {
    hide Favours;
    assert (p + [o])[..|p|] == p;
    SuffixStartInRange(p, lo, c);
  }

  lemma SuffixNeedsFavour(h: seq<Observation>, lo: int, c: Change)
    ensures SuffixStart(h, lo, c).Some? ==> |h| > 0 && Favours(h[|h| - 1], c)
  {}

  lemma StepMeans(p: seq<Observation>, o: Observation, t: Timing)
    requires Meaning(p, t)
    ensures Meaning(p + [o], t)
  {
    var c := LastChange(p, t);
    TraceUnfolds(p, o, t);
    SuffixUnfolds(p, o, c + 1, Trigger);
    SuffixUnfolds(p, o, c + 1, Recovery);
    SuffixUnfolds(p, o, |p| + 1, Trigger);
    SuffixUnfolds(p, o, |p| + 1, Recovery);
    SuffixStartInRange(p, c + 1, Trigger);
    SuffixStartInRange(p, c + 1, Recovery);
    SuffixNeedsFavour(p, c + 1, Trigger);
    SuffixNeedsFavour(p, c + 1, Recovery);
    hide After, Output, LastChange, Active, SuffixStart;
  }

  /** A trigger is emitted exactly when the alert is inactive, the longest suffix of
      known triggering observations since the last notification, free of gaps over
      15 s, spans the hold time, and the cooldown since that notification is over. */
  lemma TriggerExactly(h: seq<Observation>, t: Timing)
    requires |h| > 0
    ensures var past, now := h[..|h| - 1], h[|h| - 1].at;
      var c := LastChange(past, t);
      Output(h, t) == Trigger <==>
        && !Active(past, t)
        && (exists j :: LongestFrom(h, c + 1, j, Trigger) && now - h[j].at >= t.hold)
        && (c < 0 || now - h[c].at >= t.cooldown)
  {
    hide After, Output, LastChange, Active, LongestFrom;
    NotifiedExactly(h, t, Trigger);
  }

  /** A recovery is emitted exactly when the alert is active and the longest such
      suffix of recovering observations since its trigger spans the recovery time. */
  lemma RecoveryExactly(h: seq<Observation>, t: Timing)
    requires |h| > 0
    ensures var past, now := h[..|h| - 1], h[|h| - 1].at;
      Output(h, t) == Recovery <==>
        && Active(past, t)
        && exists j :: LongestFrom(h, LastChange(past, t) + 1, j, Recovery) && now - h[j].at >= t.recovery
  {
    hide After, Output, LastChange, Active, LongestFrom;
    NotifiedExactly(h, t, Recovery);
  }

  /** Start of the dwell that observation `o` would complete. */
  function DwellStart(st: AlertState, o: Observation, kind: Change): int {
    var since := if kind == Trigger then st.since else st.recoverySince;
    if since.None? || (st.lastObserved.Some? && o.at - st.lastObserved.value > MAX_GAP) then o.at else since.value
  }

  function Need(t: Timing, kind: Change): int {
    if kind == Trigger then t.hold else t.recovery
  }

  lemma TransitionNotifies(st: AlertState, o: Observation, t: Timing, kind: Change)
    requires kind != Nothing
    ensures Transition(st, o, t).1 == kind <==>
      && st.active == (kind == Recovery) && Favours(o, kind)
      && o.at - DwellStart(st, o, kind) >= Need(t, kind)
      && (kind == Recovery || st.lastNotified.None? || o.at - st.lastNotified.value >= t.cooldown)
  {}

  lemma DwellIsSuffix(p: seq<Observation>, o: Observation, t: Timing, kind: Change)
    requires Meaning(p, t) && kind != Nothing && After(p, t).active == (kind == Recovery) && Favours(o, kind)
    ensures var h, c := p + [o], LastChange(p, t);
      exists j :: LongestFrom(h, c + 1, j, kind) && h[j].at == DwellStart(After(p, t), o, kind)
  {
    var h, c := p + [o], LastChange(p, t);
    SuffixUnfolds(p, o, c + 1, kind);
    SuffixStartInRange(p, c + 1, kind);
    SuffixStartIsLongest(h, c + 1, kind);
    SuffixNeedsFavour(p, c + 1, kind);
    var start := SuffixStart(h, c + 1, kind);
    hide After, Output, LastChange, Active, SuffixStart, LongestFrom;
    assert LongestFrom(h, c + 1, start.value, kind);
  }

  lemma LongestIsUnique(h: seq<Observation>, lo: int, i: int, j: int, c: Change)
    requires LongestFrom(h, lo, i, c) && LongestFrom(h, lo, j, c)
    ensures i == j
  {}

  lemma NotifiedExactly(h: seq<Observation>, t: Timing, kind: Change)
    requires |h| > 0 && kind != Nothing
    ensures var past, now := h[..|h| - 1], h[|h| - 1].at;
      var c := LastChange(past, t);
      Output(h, t) == kind <==>
        && Active(past, t) == (kind == Recovery)
        && (exists j :: LongestFrom(h, c + 1, j, kind) && now - h[j].at >= Need(t, kind))
        && (kind == Recovery || c < 0 || now - h[c].at >= t.cooldown)
  {
    var p, o := h[..|h| - 1], h[|h| - 1];
    var c := LastChange(p, t);
    assert p + [o] == h;
    StateMeans(p, t);
    TraceUnfolds(p, o, t);
    TransitionNotifies(After(p, t), o, t, kind);
    var lo := c + 1;
    if Favours(o, kind) && After(p, t).active == (kind == Recovery) {
      DwellIsSuffix(p, o, t, kind);
      var i :| LongestFrom(h, lo, i, kind) && h[i].at == DwellStart(After(p, t), o, kind);
      forall j | LongestFrom(h, lo, j, kind) ensures j == i { LongestIsUnique(h, lo, i, j, kind); }
    } else {
      forall j | LongestFrom(h, lo, j, kind) ensures Favours(o, kind) {}
    }
    hide After, Output, LastChange, Active, SuffixStart, LongestFrom, Transition, DwellStart;
  }

  /** Missing measurements never notify and never change whether an alert is active. */
  lemma UnknownSuspends(h: seq<Observation>, o: Observation, t: Timing)
    requires !o.known
    ensures Output(h + [o], t) == Nothing && Active(h + [o], t) == Active(h, t)
    ensures After(h + [o], t).active == After(h, t).active
  {
    TraceUnfolds(h, o, t);
  }

  // ---- notifications alternate, and no faster than their dwell times ----

  /** Consecutive notifications differ, the first one being a trigger. */
  lemma NotificationsAlternate(h: seq<Observation>, t: Timing)
    requires |h| > 0 && Output(h, t) != Nothing
    ensures var c := LastChange(h[..|h| - 1], t);
      Output(h, t) == if c < 0 || Output(h[..c + 1], t) == Recovery then Trigger else Recovery
  {
    var p := h[..|h| - 1];
    var c := LastChange(p, t);
    if c >= 0 {
      assert p[..c + 1] == h[..c + 1];
      LastChangeNotifies(p, t);
    }
    NotifiedExactly(h, t, Output(h, t));
  }

  lemma {:induction false} LastChangeNotifies(h: seq<Observation>, t: Timing)
    ensures var c := LastChange(h, t); c >= 0 ==> Output(h[..c + 1], t) != Nothing
  {
    hide Output;
    if |h| > 0 {
      var p := h[..|h| - 1];
      LastChangeNotifies(p, t);
      var c := LastChange(p, t);
      assert h[..|h|] == h;
      if c >= 0 { assert p[..c + 1] == h[..c + 1]; }
    }
  }

  ghost predicate Monotone(h: seq<Observation>) {
    forall i, j :: 0 <= i < j < |h| ==> h[i].at <= h[j].at
  }

  /** Number of triggers in a trace, and the time of the first. */
  function Triggers(h: seq<Observation>, t: Timing): nat {
    if |h| == 0 then 0 else Triggers(h[..|h| - 1], t) + if Output(h, t) == Trigger then 1 else 0
  }

  function FirstTrigger(h: seq<Observation>, t: Timing): int {
    if |h| == 0 then 0
    else if Triggers(h[..|h| - 1], t) == 0 then h[|h| - 1].at
    else FirstTrigger(h[..|h| - 1], t)
  }

  function Cycle(t: Timing): int {
    t.recovery + if t.hold < t.cooldown then t.cooldown else t.hold
  }

  ghost predicate Spaced(h: seq<Observation>, t: Timing) {
    var n, c := Triggers(h, t), LastChange(h, t);
    && (c < 0 ==> n == 0)
    && (c >= 0 ==> n > 0 && h[c].at - FirstTrigger(h, t) >= (n - 1) * Cycle(t) + if Active(h, t) then 0 else t.recovery)
  }

  /** N triggers take at least (N - 1) * (recovery + max(hold, cooldown)). */
  lemma {:induction false} TriggersAreSpaced(h: seq<Observation>, t: Timing)
    requires Monotone(h) && t.hold >= 0 && t.recovery >= 0 && t.cooldown >= 0
    ensures Spaced(h, t)
  {
    if |h| > 0 {
      var p := h[..|h| - 1];
      TriggersAreSpaced(p, t);
      SpacingStep(p, h[|h| - 1], t);
      assert p + [h[|h| - 1]] == h;
    }
  }

  lemma TriggersUnfold(p: seq<Observation>, o: Observation, t: Timing)
    ensures var h := p + [o];
      && Triggers(h, t) == Triggers(p, t) + (if Output(h, t) == Trigger then 1 else 0)
      && FirstTrigger(h, t) == if Triggers(p, t) == 0 then o.at else FirstTrigger(p, t)
  {
    hide Output;
    assert (p + [o])[..|p|] == p;
  }

  lemma RecoveryFollowsTrigger(p: seq<Observation>, o: Observation, t: Timing)
    requires Output(p + [o], t) == Recovery
    ensures LastChange(p, t) >= 0
  {
    hide After, Output, LongestFrom;
    assert (p + [o])[..|p|] == p;
    NotifiedExactly(p + [o], t, Recovery);
  }

  lemma SpacingStep(p: seq<Observation>, o: Observation, t: Timing)
    requires Monotone(p + [o]) && t.hold >= 0 && t.recovery >= 0 && t.cooldown >= 0
    requires Spaced(p, t)
    ensures Spaced(p + [o], t)
  {
    hide After, Output, LastChange, Active, LongestFrom, Transition, Triggers, FirstTrigger, Monotone;
    var h := p + [o];
    assert h[..|h| - 1] == p;
    TraceUnfolds(p, o, t);
    TriggersUnfold(p, o, t);
    var out, c, n := Output(h, t), LastChange(p, t), Triggers(p, t);
    if out == Recovery { RecoveryFollowsTrigger(p, o, t); }
    if out != Nothing && c >= 0 { DwellSinceChange(h, t); }
    if n > 0 { assert n * Cycle(t) == (n - 1) * Cycle(t) + Cycle(t); }
  }

  /** A notification is never earlier than its dwell times after the one before. */
  lemma DwellSinceChange(h: seq<Observation>, t: Timing)
    requires |h| > 0 && Monotone(h) && Output(h, t) != Nothing && LastChange(h[..|h| - 1], t) >= 0
    ensures var p := h[..|h| - 1];
      var elapsed := h[|h| - 1].at - h[LastChange(p, t)].at;
      && Active(p, t) == (Output(h, t) == Recovery)
      && elapsed >= Need(t, Output(h, t)) && (Output(h, t) == Trigger ==> elapsed >= t.cooldown)
  {
    var p, out := h[..|h| - 1], Output(h, t);
    var c := LastChange(p, t);
    NotifiedExactly(h, t, out);
    hide After, Output, LastChange, Active;
    var j :| LongestFrom(h, c + 1, j, out) && h[|h| - 1].at - h[j].at >= Need(t, out);
    assert h[c].at <= h[j].at;
  }

  // ---- all alert keys of a host ----

  datatype Rules = Rules(grace: int, duration: int, recovery: int, cooldown: int, hysteresis: real,
                         cpu: real, memory: real, disk: real)

  /** What one evaluation sees: the age of the last current report, whether the host
      is online, the latest percentages by mount, the quota and the traffic used. */
  datatype Vitals = Vitals(now: int, muted: bool, age: Option<int>, online: bool, cpu: Option<real>,
                           memory: Option<real>,
                           mounts: map<string, real>, quota: nat, used: nat)

  datatype Probe = Probe(o: Observation, t: Timing)

  type States = map<string, AlertState>

  function Fresh(v: Vitals): bool {
    !v.muted && v.online
  }

  function MakeProbe(v: Vitals, r: Rules, known: bool, trigger: bool, recover: bool, hold: int): Probe {
    Probe(Observation(v.now, known && !v.muted, trigger, recover), Timing(hold, r.recovery, r.cooldown))
  }

  function Threshold(v: Vitals, r: Rules, reading: Option<real>, limit: real): Probe {
    var value := if reading.Some? then reading.value else 0.0;
    var low := if limit - r.hysteresis < 0.0 then 0.0 else limit - r.hysteresis;
    MakeProbe(v, r, Fresh(v) && reading.Some? && limit > 0.0, value >= limit, value <= low, r.duration)
  }

  function Offline(v: Vitals, r: Rules): Probe {
    var age := if v.age.Some? then v.age.value else 0;
    MakeProbe(v, r, v.age.Some?, age >= r.grace, Fresh(v), 0)
  }

  function Quota(v: Vitals, r: Rules): Probe {
    MakeProbe(v, r, Fresh(v), v.used >= v.quota, v.used < v.quota, 0)
  }

  function DiskKey(mount: string): string {
    "disk_high:" + mount
  }

  predicate Evaluated(v: Vitals, key: string) {
    || key == "agent_offline" || key == "cpu_high" || key == "memory_high"
    || (key == "traffic_quota" && v.quota > 0)
    || (DiskKey("") <= key && key[10..] in v.mounts)
  }

  /** The probe that a key is given; the limits differ, the transition is the same. */
  function ProbeOf(v: Vitals, r: Rules, key: string): Probe
    requires Evaluated(v, key)
  {
    if key == "agent_offline" then Offline(v, r)
    else if key == "cpu_high" then Threshold(v, r, v.cpu, r.cpu)
    else if key == "memory_high" then Threshold(v, r, v.memory, r.memory)
    else if key == "traffic_quota" then Quota(v, r)
    else Threshold(v, r, Some(v.mounts[key[10..]]), r.disk)
  }

  function StateOf(states: States, key: string): AlertState {
    if key in states then states[key] else INITIAL
  }

  /** The state of an evaluation after the keys in `done`. */
  ghost predicate Partly(before: States, v: Vitals, r: Rules, states: States, changes: map<string, Change>,
                         done: set<string>) {
    && changes.Keys == done
    && (forall key :: key in done ==> Evaluated(v, key) && key in states)
    && (forall key :: key in done ==> (states[key], changes[key]) == Next(before, v, r, key))
    && (forall key :: key !in done ==> StateOf(states, key) == StateOf(before, key))
  }

  function Next(before: States, v: Vitals, r: Rules, key: string): (AlertState, Change)
    requires Evaluated(v, key)
  {
    Transition(StateOf(before, key), ProbeOf(v, r, key).o, ProbeOf(v, r, key).t)
  }

  method Process(ghost before: States, ghost v: Vitals, ghost r: Rules, ghost done: set<string>,
                 states: States, changes: map<string, Change>, key: string, p: Probe)
    returns (next: States, out: map<string, Change>)
    requires Partly(before, v, r, states, changes, done)
    requires key !in done && Evaluated(v, key) && p == ProbeOf(v, r, key)
    ensures Partly(before, v, r, next, out, done + {key})
  {
    hide Transition, Evaluated, ProbeOf;
    var (st, change) := Transition(StateOf(states, key), p.o, p.t);
    next, out := states[key := st], changes[key := change];
  }

  lemma DiskKeys(mount: string, other: string)
    ensures DiskKey("") <= DiskKey(mount) && DiskKey(mount)[10..] == mount
    ensures DiskKey(mount) == DiskKey(other) ==> mount == other
    ensures DiskKey(mount)[0] == 'd'
    ensures DiskKey("") <= other ==> DiskKey(other[10..]) == other
  {
    assert DiskKey(mount)[10..] == mount && DiskKey(other)[10..] == other;
  }

  /** What an evaluation leaves behind: one transition for every evaluated key, and
      nothing for any other key. */
  ghost predicate Evaluation(before: States, v: Vitals, r: Rules, states: States, changes: map<string, Change>) {
    && (forall key :: key in states <==> Evaluated(v, key))
    && (forall key :: key in changes <==> Evaluated(v, key))
    && (forall key :: Evaluated(v, key) ==>
         (states[key], changes[key]) == Next(before, v, r, key))
  }

  method EvaluateHostAlerts(before: States, v: Vitals, r: Rules) returns (states: States, changes: map<string, Change>)
    ensures Evaluation(before, v, r, states, changes)
  {
    hide Transition, Threshold, Offline, Quota, Partly, Next;
    ghost var done: set<string> := {};
    states, changes := before, map[];
    assert Partly(before, v, r, states, changes, done) by { NothingDone(before, v, r); }
    states, changes := Process(before, v, r, done, states, changes, "agent_offline", Offline(v, r));
    done := done + {"agent_offline"};
    states, changes := Process(before, v, r, done, states, changes, "cpu_high", Threshold(v, r, v.cpu, r.cpu));
    done := done + {"cpu_high"};
    states, changes := Process(before, v, r, done, states, changes, "memory_high", Threshold(v, r, v.memory, r.memory));
    done := done + {"memory_high"};
    states, changes, done := ProcessMounts(before, v, r, done, states, changes);
    if v.quota > 0 {
      forall mount ensures DiskKey(mount) != "traffic_quota" { FixedKeys(mount); }
      assert "traffic_quota" !in done;
      states, changes := Process(before, v, r, done, states, changes, "traffic_quota", Quota(v, r));
      done := done + {"traffic_quota"};
    }
    Finish(before, v, r, states, changes, done);
    states := map key | key in states && key in changes :: states[key];
    AllDone(before, v, r, states, changes, done);
  }

  lemma Finish(before: States, v: Vitals, r: Rules, states: States, changes: map<string, Change>, done: set<string>)
    requires Partly(before, v, r, states, changes, done)
    ensures changes.Keys == done && done <= states.Keys
    ensures forall key :: key in done ==> Evaluated(v, key) && (states[key], changes[key]) == Next(before, v, r, key)
  {}

  lemma NothingDone(before: States, v: Vitals, r: Rules)
    ensures Partly(before, v, r, before, map[], {})
  {}

  method ProcessMounts(ghost before: States, v: Vitals, r: Rules, ghost first: set<string>, states: States,
                       changes: map<string, Change>)
    returns (next: States, out: map<string, Change>, ghost done: set<string>)
    requires Partly(before, v, r, states, changes, first)
    requires first == {"agent_offline", "cpu_high", "memory_high"}
    ensures Partly(before, v, r, next, out, done)
    ensures done == first + set m | m in v.mounts :: DiskKey(m)
  {
    hide Transition, Threshold, Partly, Next, DiskKey;
    next, out, done := states, changes, first;
    var mounts := v.mounts.Keys;
    while mounts != {}
      invariant mounts <= v.mounts.Keys
      invariant Partly(before, v, r, next, out, done)
      invariant done == first + set m | m in v.mounts && m !in mounts :: DiskKey(m)
    {
      var mount :| mount in mounts;
      var key := DiskKey(mount);
      DiskKeys(mount, mount);
      assert key !in done by {
        forall m | m in v.mounts && m !in mounts ensures DiskKey(m) != key { DiskKeys(m, mount); }
        FixedKeys(mount);
      }
      DiskProbe(v, r, mount);
      next, out := Process(before, v, r, done, next, out, key, Threshold(v, r, Some(v.mounts[mount]), r.disk));
      done := done + {key};
      mounts := mounts - {mount};
    }
  }

  lemma FixedKeys(mount: string)
    ensures DiskKey(mount) !in {"agent_offline", "cpu_high", "memory_high", "traffic_quota"}
  {
    DiskKeys(mount, mount);
  }

  lemma DiskProbe(v: Vitals, r: Rules, mount: string)
    requires mount in v.mounts
    ensures Evaluated(v, DiskKey(mount))
    ensures ProbeOf(v, r, DiskKey(mount)) == Threshold(v, r, Some(v.mounts[mount]), r.disk)
  {
    DiskKeys(mount, mount);
    FixedKeys(mount);
  }

  lemma AllDone(before: States, v: Vitals, r: Rules, states: States, changes: map<string, Change>, done: set<string>)
    requires done == {"agent_offline", "cpu_high", "memory_high"} + (set m | m in v.mounts :: DiskKey(m))
                     + if v.quota > 0 then {"traffic_quota"} else {}
    requires changes.Keys == done && states.Keys == done
    requires forall key :: key in done ==> Evaluated(v, key) && (states[key], changes[key]) == Next(before, v, r, key)
    ensures Evaluation(before, v, r, states, changes)
  {
    hide Next, DiskKey;
    forall key | Evaluated(v, key) ensures key in done { DiskKeys("", key); }
  }

  // ---- a key over many evaluations ----

  /** The observations of a key since it was last left out of an evaluation. */
  function Observed(inputs: seq<Vitals>, r: Rules, key: string): seq<Observation> {
    if |inputs| == 0 || !Evaluated(inputs[|inputs| - 1], key) then []
    else Observed(inputs[..|inputs| - 1], r, key) + [ProbeOf(inputs[|inputs| - 1], r, key).o]
  }

  function TimingOf(r: Rules, key: string): Timing {
    Timing(if key == "agent_offline" || key == "traffic_quota" then 0 else r.duration, r.recovery, r.cooldown)
  }

  /** The state maps that a series of evaluations with unchanged rules goes through. */
  ghost predicate History(inputs: seq<Vitals>, r: Rules, states: seq<States>, changes: seq<map<string, Change>>) {
    && |states| == |inputs| + 1 && |changes| == |inputs| && states[0] == map[]
    && forall i :: 0 <= i < |inputs| ==> Evaluation(states[i], inputs[i], r, states[i + 1], changes[i])
  }

  /** Every key follows the trace specification over the observations made since it
      was last left out, whatever happens to the other keys. */
  lemma {:induction false} KeyFollowsItsTrace(inputs: seq<Vitals>, r: Rules, states: seq<States>,
                                              changes: seq<map<string, Change>>, key: string)
    requires History(inputs, r, states, changes)
    ensures StateOf(states[|inputs|], key) == After(Observed(inputs, r, key), TimingOf(r, key))
    ensures |inputs| > 0 && Evaluated(inputs[|inputs| - 1], key) ==>
      |Observed(inputs, r, key)| > 0 && changes[|inputs| - 1][key] == Output(Observed(inputs, r, key), TimingOf(r, key))
  {
    hide Transition, Evaluated;
    if |inputs| > 0 {
      var n := |inputs| - 1;
      var p := inputs[..n];
      assert History(p, r, states[..n + 1], changes[..n]);
      KeyFollowsItsTrace(p, r, states[..n + 1], changes[..n], key);
      assert Evaluation(states[n], inputs[n], r, states[n + 1], changes[n]);
      if Evaluated(inputs[n], key) {
        var h := Observed(p, r, key);
        TraceUnfolds(h, ProbeOf(inputs[n], r, key).o, TimingOf(r, key));
        ProbeTiming(inputs[n], r, key);
      }
    }
  }

  lemma ProbeTiming(v: Vitals, r: Rules, key: string)
    requires Evaluated(v, key)
    ensures ProbeOf(v, r, key).t == TimingOf(r, key)
  {}

  /** An active alert is suspended, kept or recovered as long as its key is evaluated.
      It is forgotten, with no recovery and with its cooldown lost, exactly when the
      evaluation leaves its key out: a mount missing from the latest report, or a
      quota that was switched off. */
  lemma ActiveAlertForgottenExactly(before: States, v: Vitals, r: Rules, states: States, changes: map<string, Change>,
                                    key: string)
    requires Evaluation(before, v, r, states, changes) && StateOf(before, key).active
    ensures Evaluated(v, key) <==> StateOf(states, key).active || (key in changes && changes[key] == Recovery)
    ensures !Evaluated(v, key) ==> StateOf(states, key) == INITIAL
    ensures key in {"agent_offline", "cpu_high", "memory_high"} ==> Evaluated(v, key)
    ensures forall mount :: key == DiskKey(mount) ==> (Evaluated(v, key) <==> mount in v.mounts)
  {
    forall mount | key == DiskKey(mount) ensures Evaluated(v, key) <==> mount in v.mounts { DiskKeys(mount, mount); }
    if Evaluated(v, key) {
      assert (states[key], changes[key]) == Next(before, v, r, key);
      hide ProbeOf;
    }
  }

  const LIMITS := Rules(MINUTE, 5 * SECOND, 5 * SECOND, 0, 5.0, 0.0, 0.0, 90.0)

  /** A fresh report without CPU or memory readings and without a quota. */
  function Disks(now: int, mounts: map<string, real>): Vitals {
    Vitals(now, false, Some(0), true, None, None, mounts, 0, 0)
  }

  const FULL := map["/" := 95.0]
  const EVALUATIONS := [Disks(0, FULL), Disks(5 * SECOND, FULL), Disks(10 * SECOND, map[])]

  lemma FullDisk(v: Vitals, mounts: map<string, real>)
    requires v == Disks(v.now, mounts)
    ensures Evaluated(v, DiskKey("/")) <==> "/" in mounts
    ensures mounts == FULL ==>
      ProbeOf(v, LIMITS, DiskKey("/"))
        == Probe(Observation(v.now, true, true, false), Timing(5 * SECOND, 5 * SECOND, 0))
  {
    DiskKeys("/", "/");
    assert DiskKey("/")[0] == 'd' && "agent_offline"[0] == 'a' && "cpu_high"[0] == 'c' && "memory_high"[0] == 'm';
    assert "traffic_quota"[0] == 't';
  }

  /** A full disk sets off its alert, and an evaluation after a report without the mount
      forgets it: no recovery is notified, and no state is left. */
  lemma UnreportedDiskIsForgotten(states: seq<States>, changes: seq<map<string, Change>>)
    requires History(EVALUATIONS, LIMITS, states, changes)
    ensures var key := DiskKey("/");
      && key in changes[1] && changes[1][key] == Trigger && StateOf(states[2], key).active
      && key !in changes[2] && key !in states[3]
  {
    var key := DiskKey("/");
    FullDisk(EVALUATIONS[0], FULL);
    FullDisk(EVALUATIONS[1], FULL);
    FullDisk(EVALUATIONS[2], map[]);
    hide Evaluated, ProbeOf, DiskKey;
    assert Evaluation(states[0], EVALUATIONS[0], LIMITS, states[1], changes[0]);
    assert Evaluation(states[1], EVALUATIONS[1], LIMITS, states[2], changes[1]);
    assert Evaluation(states[2], EVALUATIONS[2], LIMITS, states[3], changes[2]);
    assert states[1][key] == AlertState(false, Some(0), None, Some(0), None);
  }

  /** Of every key that is evaluated: while a host is muted its alert does not change and
      nothing is notified; while its agent does not report, this holds of all but the
      offline alert, so a lost agent does not set off, or end, its resource alerts. */
  lemma SilentWhileUnreachable(before: States, v: Vitals, r: Rules, states: States, changes: map<string, Change>,
                               key: string)
    requires Evaluation(before, v, r, states, changes) && Evaluated(v, key)
    requires v.muted || (!v.online && key != "agent_offline")
    ensures changes[key] == Nothing && StateOf(states, key).active == StateOf(before, key).active
  {
    assert !ProbeOf(v, r, key).o.known by { hide Evaluated; }
    assert (states[key], changes[key]) == Next(before, v, r, key);
    hide ProbeOf, Evaluated;
  }

  /** A reading favours both triggering and recovery only exactly at its limit and
      without hysteresis. */
  lemma BandsAreApart(v: Vitals, r: Rules, reading: Option<real>, limit: real)
    requires r.hysteresis >= 0.0 && Threshold(v, r, reading, limit).o.known
    ensures var o := Threshold(v, r, reading, limit).o;
      o.trigger && o.recover <==> r.hysteresis == 0.0 && reading == Some(limit)
  {}
}
