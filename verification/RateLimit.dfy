/** The fixed-window rate limiter, and how many calls it can admit over whole runs. */
module RateLimit {
  import opened Basics
  import MapSums

  const MAX_KEYS := 10000

  datatype Bucket = Bucket(n: nat, until: int)
  type Limits = map<string, Bucket>

  /** The keys whose window is not over. */
  function Live(limits: Limits, now: int): Limits {
    map k | k in limits && now <= limits[k].until :: limits[k]
  }

  function Swept(limits: Limits, now: int): Limits {
    if |limits| > MAX_KEYS then Live(limits, now) else limits
  }

  predicate Granted(limits: Limits, key: string, n: nat, now: int) {
    var swept := Swept(limits, now);
    && |swept| <= MAX_KEYS
    && (key !in swept || swept[key].until < now || swept[key].n < n)
  }

  function Allowed(limits: Limits, key: string, n: nat, d: int, now: int): Limits {
    var swept := Swept(limits, now);
    if !Granted(limits, key, n, now) then swept
    else if key !in swept || swept[key].until < now then swept[key := Bucket(1, now + d)]
    else swept[key := swept[key].(n := swept[key].n + 1)]
  }

  class Limiter {
    var limits: Limits

    /** The table never holds more than one key over its limit. */
    ghost predicate Valid()
      reads this
    {
      |limits| <= MAX_KEYS + 1
    }

    constructor ()
      ensures Valid() && limits == map[]
    {
      limits := map[];
    }

    method Allow(key: string, n: nat, d: int, now: int) returns (ok: bool)
      requires Valid()
      modifies this
      ensures Valid()
      ensures ok == Granted(old(limits), key, n, now)
      ensures limits == Allowed(old(limits), key, n, d, now)
      ensures forall k :: k in old(limits) && now <= old(limits)[k].until ==> k in limits
    {
      if |limits| > MAX_KEYS {
        Sweep(now);
        if |limits| > MAX_KEYS { return false; }
      }
      if key !in limits || limits[key].until < now {
        limits := limits[key := Bucket(1, now + d)];
        return true;
      }
      if limits[key].n >= n { return false; }
      limits := limits[key := limits[key].(n := limits[key].n + 1)];
      return true;
    }

    /** Deletes expired buckets and no others. */
    method Sweep(now: int)
      requires Valid()
      modifies this
      ensures limits == Live(old(limits), now) && Valid()
    {
      var before := limits;
      var keys := limits.Keys;
      while keys != {}
        invariant keys <= before.Keys
        invariant limits == map k | k in before && (k in keys || now <= before[k].until) :: before[k]
      {
        var k :| k in keys;
        if limits[k].until < now { limits := limits - {k}; }
        keys := keys - {k};
      }
      MapSums.SubsetIsSmaller(limits.Keys, before.Keys);
    }
  }

  // ---- whole runs, with a fixed quota and window for the key under study ----

  datatype Call = Call(key: string, n: nat, d: int, now: int)

  function Run(calls: seq<Call>): Limits {
    if |calls| == 0 then map[]
    else
      var c := calls[|calls| - 1];
      Allowed(Run(calls[..|calls| - 1]), c.key, c.n, c.d, c.now)
  }

  predicate Admits(limits: Limits, c: Call, key: string) {
    c.key == key && Granted(limits, key, c.n, c.now)
  }

  /** Times at which calls for a key were granted. */
  function Grants(calls: seq<Call>, key: string): seq<int> {
    if |calls| == 0 then []
    else
      var past, c := calls[..|calls| - 1], calls[|calls| - 1];
      if Admits(Run(past), c, key) then Grants(past, key) + [c.now] else Grants(past, key)
  }

  ghost predicate Legal(calls: seq<Call>, key: string, n: nat, d: int) {
    && (forall i, j :: 0 <= i < j < |calls| ==> calls[i].now <= calls[j].now)
    && (forall c :: c in calls && c.key == key ==> c.n == n && c.d == d)
  }

  /** Grants in the closed interval [lo, hi]. */
  function CountIn(g: seq<int>, lo: int, hi: int): nat {
    if |g| == 0 then 0 else CountIn(g[..|g| - 1], lo, hi) + if lo <= g[|g| - 1] <= hi then 1 else 0
  }

  lemma CountGrows(g: seq<int>, t: int, lo: int, hi: int)
    ensures CountIn(g + [t], lo, hi) == CountIn(g, lo, hi) + if lo <= t <= hi then 1 else 0
  {
    assert (g + [t])[..|g|] == g;
  }

  lemma {:induction false} CountNarrows(g: seq<int>, lo: int, hi: int, lo2: int, hi2: int)
    requires lo <= lo2 && hi2 <= hi
    ensures CountIn(g, lo2, hi2) <= CountIn(g, lo, hi)
  {
    if |g| > 0 { CountNarrows(g[..|g| - 1], lo, hi, lo2, hi2); }
  }

  lemma {:induction false} CountUpTo(g: seq<int>, lo: int, hi: int, clock: int)
    requires forall t :: t in g ==> t <= clock
    requires clock <= hi
    ensures CountIn(g, lo, hi) == CountIn(g, lo, clock)
  {
    if |g| > 0 {
      var most := g[..|g| - 1];
      assert g[|g| - 1] in g;
      forall t | t in most ensures t <= clock { assert t in g; }
      CountUpTo(most, lo, hi, clock);
    }
  }

  lemma {:induction false} CountNone(g: seq<int>, lo: int, hi: int)
    requires forall t :: t in g ==> t < lo
    ensures CountIn(g, lo, hi) == 0
  {
    if |g| > 0 {
      var most := g[..|g| - 1];
      assert g[|g| - 1] in g;
      forall t | t in most ensures t < lo { assert t in g; }
      CountNone(most, lo, hi);
    }
  }

  /** Starts of the last two windows opened for the key. */
  datatype Windows = Windows(previous: Option<int>, last: Option<int>)

  function Opened(calls: seq<Call>, key: string): Windows {
    if |calls| == 0 then Windows(None, None)
    else
      var past, c := calls[..|calls| - 1], calls[|calls| - 1];
      var limits, w := Swept(Run(past), c.now), Opened(past, key);
      if Admits(Run(past), c, key) && (key !in limits || limits[key].until < c.now) then Windows(w.last, Some(c.now))
      else w
  }

  function AtLeastOne(n: nat): nat {
    if n == 0 then 1 else n
  }

  ghost predicate Accounted(limits: Limits, g: seq<int>, w: Windows, key: string, n: nat, d: int, clock: int) {
    && (forall t :: t in g ==> t <= clock)
    && (w.last.None? ==> w.previous.None? && g == [] && key !in limits)
    && (w.last.Some? ==>
         && w.last.value <= clock
         && (forall t :: t in g ==> t <= w.last.value + d)
         && 0 < CountIn(g, w.last.value, clock) <= AtLeastOne(n)
         && (if key in limits then limits[key] == Bucket(CountIn(g, w.last.value, clock), w.last.value + d)
             else w.last.value + d < clock)
         && (if w.previous.Some? then
               w.previous.value + d < w.last.value
               && CountIn(g, w.previous.value, clock) <= AtLeastOne(n) + CountIn(g, w.last.value, clock)
             else forall lo :: CountIn(g, lo, clock) <= CountIn(g, w.last.value, clock)))
  }

  lemma ClockMoves(limits: Limits, g: seq<int>, w: Windows, key: string, n: nat, d: int, clock: int, now: int)
    requires Accounted(limits, g, w, key, n, d, clock) && clock <= now
    ensures Accounted(limits, g, w, key, n, d, now)
  {
    forall lo ensures CountIn(g, lo, now) == CountIn(g, lo, clock) { CountUpTo(g, lo, now, clock); }
  }

  lemma SweepAccounts(limits: Limits, g: seq<int>, w: Windows, key: string, n: nat, d: int, now: int)
    requires Accounted(limits, g, w, key, n, d, now)
    ensures Accounted(Swept(limits, now), g, w, key, n, d, now)
  {
    hide CountIn;
  }

  lemma GrantAccounts(limits: Limits, g: seq<int>, w: Windows, key: string, n: nat, d: int, now: int)
    requires Accounted(limits, g, w, key, n, d, now) && d >= 0
    requires key !in limits || limits[key].until < now || limits[key].n < n
    ensures if key !in limits || limits[key].until < now
      then Accounted(limits[key := Bucket(1, now + d)], g + [now], Windows(w.last, Some(now)), key, n, d, now)
      else Accounted(limits[key := limits[key].(n := limits[key].n + 1)], g + [now], w, key, n, d, now)
  {
    forall lo
      ensures CountIn(g + [now], lo, now) == CountIn(g, lo, now) + if lo <= now then 1 else 0
    {
      CountGrows(g, now, lo, now);
    }
    if key !in limits || limits[key].until < now {
      assert forall t :: t in g ==> t < now;
      CountNone(g, now, now);
      if w.last.None? { forall lo ensures CountIn(g, lo, now) == 0 {} }
    }
    hide CountIn;
  }

  lemma NothingRun(key: string)
    ensures Run([]) == map[] && Grants([], key) == [] && Opened([], key) == Windows(None, None)
  {}

  /** The last call of a run, with everything before it accounted for. */
  lemma CallAccounts(calls: seq<Call>, key: string, n: nat, d: int)
    requires |calls| > 0 && d >= 0
    requires calls[|calls| - 1].key == key ==> calls[|calls| - 1].n == n && calls[|calls| - 1].d == d
    requires var past, c := calls[..|calls| - 1], calls[|calls| - 1];
      Accounted(Run(past), Grants(past, key), Opened(past, key), key, n, d, c.now)
    ensures Accounted(Run(calls), Grants(calls, key), Opened(calls, key), key, n, d, calls[|calls| - 1].now)
  {
    hide Accounted, Swept;
    var past, c := calls[..|calls| - 1], calls[|calls| - 1];
    SweepAccounts(Run(past), Grants(past, key), Opened(past, key), key, n, d, c.now);
    if Admits(Run(past), c, key) {
      GrantAccounts(Swept(Run(past), c.now), Grants(past, key), Opened(past, key), key, n, d, c.now);
    } else if c.key != key {
      OtherKeyAccounts(Swept(Run(past), c.now), Run(calls), Grants(past, key), Opened(past, key), key, n, d, c.now);
    }
  }

  lemma {:induction false} RunAccounts(calls: seq<Call>, key: string, n: nat, d: int, clock: int)
    requires Legal(calls, key, n, d) && d >= 0 && forall c :: c in calls ==> c.now <= clock
    ensures Accounted(Run(calls), Grants(calls, key), Opened(calls, key), key, n, d, clock)
  {
    hide Accounted, Opened, Run, Grants;
    if |calls| == 0 {
      NothingRun(key);
      NothingAccounted(key, n, d, clock);
    } else {
      var past, c := calls[..|calls| - 1], calls[|calls| - 1];
      forall b | b in past ensures b.now <= c.now {
        var i :| 0 <= i < |past| && past[i] == b;
        assert calls[i].now <= calls[|calls| - 1].now;
      }
      RunAccounts(past, key, n, d, c.now);
      assert c in calls;
      CallAccounts(calls, key, n, d);
      ClockMoves(Run(calls), Grants(calls, key), Opened(calls, key), key, n, d, c.now, clock);
    }
  }

  lemma NothingAccounted(key: string, n: nat, d: int, clock: int)
    ensures Accounted(map[], [], Windows(None, None), key, n, d, clock)
  {}

  lemma OtherKeyAccounts(limits: Limits, next: Limits, g: seq<int>, w: Windows, key: string, n: nat, d: int, now: int)
    requires Accounted(limits, g, w, key, n, d, now)
    requires key in next <==> key in limits
    requires key in limits ==> next[key] == limits[key]
    ensures Accounted(next, g, w, key, n, d, now)
  {
    hide CountIn;
  }

  /** With a fixed quota n and window d for a key and a clock that never runs
      backwards, any closed interval of length d contains at most 2n grants. */
  lemma {:induction false} AtMostTwoQuotas(calls: seq<Call>, key: string, n: nat, d: int, lo: int)
    requires Legal(calls, key, n, d) && d >= 0
    ensures CountIn(Grants(calls, key), lo, lo + d) <= 2 * AtLeastOne(n)
  {
    if |calls| > 0 {
      var past, c := calls[..|calls| - 1], calls[|calls| - 1];
      AtMostTwoQuotas(past, key, n, d, lo);
      forall b | b in calls ensures b.now <= c.now {
        var i :| 0 <= i < |calls| && calls[i] == b;
      }
      RunAccounts(calls, key, n, d, c.now);
      hide Accounted, CountIn, Run, Opened, Admits;
      if Admits(Run(past), c, key) {
        CountGrows(Grants(past, key), c.now, lo, lo + d);
        if lo <= c.now <= lo + d {
          IntervalBound(Run(calls), Grants(calls, key), Opened(calls, key), key, n, d, c.now, lo);
        }
      }
    }
  }

  /** An interval that reaches the present meets at most the last two windows. */
  lemma IntervalBound(limits: Limits, g: seq<int>, w: Windows, key: string, n: nat, d: int, now: int, lo: int)
    requires Accounted(limits, g, w, key, n, d, now) && lo <= now <= lo + d
    ensures CountIn(g, lo, lo + d) <= 2 * AtLeastOne(n)
  {
    CountUpTo(g, lo, lo + d, now);
    if w.previous.Some? { CountNarrows(g, w.previous.value, now, lo, now); }
  }

  /** A window grants at most its quota (at least one call is granted in each). */
  lemma WindowGrantsItsQuota(calls: seq<Call>, key: string, n: nat, d: int, clock: int)
    requires Legal(calls, key, n, d) && d >= 0 && forall c :: c in calls ==> c.now <= clock
    requires Opened(calls, key).last.Some?
    ensures 0 < CountIn(Grants(calls, key), Opened(calls, key).last.value, clock) <= AtLeastOne(n)
  {
    RunAccounts(calls, key, n, d, clock);
  }

  /** A refusal is never unfounded: either the quota of the key's open window is used
      up, or more than 10000 unexpired keys are held. */
  lemma RefusedExactly(limits: Limits, key: string, n: nat, now: int)
    ensures !Granted(limits, key, n, now) <==>
      || |set k | k in limits && now <= limits[k].until| > 10000
      || (key in limits && now <= limits[key].until && limits[key].n >= n)
  {
    var live := Live(limits, now);
    assert live.Keys == set k | k in limits && now <= limits[k].until;
    assert |live| == |live.Keys| && live.Keys <= limits.Keys;
    MapSums.SubsetIsSmaller(live.Keys, limits.Keys);
  }
}
