/** The in-memory window of raw samples: one ring per host, trimmed to three limits,
    and a byte budget for the whole process that evicts the stalest hosts first. */
module SampleCache {
  import opened Calendar
  import MapSums

  /** `bytes` is the accounted size of the cached sample. */
  datatype Entry = Entry(sampledAt: int, receivedAt: int, bytes: nat)

  const WINDOW := 10 * MINUTE
  const RING := 600
  const RING_BYTES := 8 * 1024 * 1024
  const CACHE_BYTES := 128 * 1024 * 1024

  function Bytes(ring: seq<Entry>): nat {
    if |ring| == 0 then 0 else ring[0].bytes + Bytes(ring[1..])
  }

  lemma {:induction false} BytesGrow(ring: seq<Entry>, i: nat)
    requires i < |ring|
    ensures Bytes(ring[..i + 1]) == Bytes(ring[..i]) + ring[i].bytes
  {
    if i > 0 {
      BytesGrow(ring[1..], i - 1);
      assert ring[1..][..i] == ring[..i + 1][1..] && ring[1..][..i - 1] == ring[..i][1..];
    } else {
      assert ring[..1][1..] == [];
    }
  }

  /** A ring within its limits: its oldest sample is recent, and it is neither too long
      nor too large. The newest sample alone is always allowed. */
  predicate Fits(ring: seq<Entry>, now: int) {
    |ring| <= 1 || (now - WINDOW <= ring[0].sampledAt && |ring| <= RING && Bytes(ring) <= RING_BYTES)
  }

  /** Drops samples from the front and no more than needed. */
  method Trim(ring: seq<Entry>, now: int) returns (start: nat)
    requires |ring| > 0
    ensures start < |ring| && Fits(ring[start..], now)
    ensures forall k :: 0 <= k < start ==> !Fits(ring[k..], now)
  {
    var bytes := Weigh(ring);
    assert ring[0..] == ring;
    start := 0;
    while start < |ring| - 1 && (ring[start].sampledAt < now - WINDOW || |ring| - start > RING || bytes > RING_BYTES)
      invariant start < |ring| && bytes == Bytes(ring[start..])
      invariant forall k :: 0 <= k < start ==> !Fits(ring[k..], now)
    {
      assert ring[start..][0] == ring[start] && ring[start..][1..] == ring[start + 1..];
      bytes := bytes - ring[start].bytes;
      start := start + 1;
    }
    assert ring[start..][0] == ring[start];
  }

  /** Bounding the head bounds all: a kept sample other than the newest is recent, or it
      reached the cache behind one that was taken later and is kept as well. In a ring
      filled in the order of sampling there is none of the second kind. */
  lemma KeptSamplesAreRecent(ring: seq<Entry>, start: nat, now: int)
    requires start < |ring| && Fits(ring[start..], now)
    ensures forall i :: start <= i < |ring| - 1 ==>
      now - WINDOW <= ring[i].sampledAt || (start < i && ring[i].sampledAt < ring[start].sampledAt)
    ensures (forall i, j :: 0 <= i < j < |ring| ==> ring[i].sampledAt < ring[j].sampledAt) ==>
      forall i :: start <= i < |ring| - 1 ==> now - WINDOW <= ring[i].sampledAt
  {
    assert ring[start..][0] == ring[start];
  }

  type Rings = map<string, seq<Entry>>

  ghost function Sizes(cache: Rings): map<string, int> {
    map id | id in cache :: Bytes(cache[id])
  }

  /** Accounted bytes of the whole cache. */
  ghost function Total(cache: Rings): int {
    MapSums.Sum(Sizes(cache))
  }

  /** When the host's newest sample arrived. */
  function LastSeen(ring: seq<Entry>): int
    requires |ring| > 0
  {
    ring[|ring| - 1].receivedAt
  }

  /** Outside `left`, the host other than `host` that has been silent longest. */
  ghost predicate Stalest(rings: Rings, left: set<string>, host: string, oldest: string, oldestAt: int)
    requires forall id :: id in rings ==> |rings[id]| > 0
  {
    && oldest in rings && oldest !in left && oldest != host && oldestAt == LastSeen(rings[oldest])
    && forall id :: id in rings && id !in left && id != host ==> oldestAt <= LastSeen(rings[id])
  }

  function Ring(rings: Rings, host: string): seq<Entry> {
    if host in rings then rings[host] else []
  }

  method Weigh(ring: seq<Entry>) returns (bytes: nat)
    ensures bytes == Bytes(ring)
  {
    bytes := 0;
    for i := 0 to |ring|
      invariant bytes == Bytes(ring[..i])
    {
      BytesGrow(ring, i);
      bytes := bytes + ring[i].bytes;
    }
    assert ring[..|ring|] == ring;
  }

  class Cache {
    var rings: Rings

    /** Host identifiers are never empty, and no ring is empty or over its own limits. */
    ghost predicate Valid()
      reads this
    {
      && "" !in rings
      && forall id :: id in rings ==>
        |rings[id]| > 0 && |rings[id]| <= RING && (|rings[id]| == 1 || Bytes(rings[id]) <= RING_BYTES)
    }

    constructor ()
      ensures Valid() && rings == map[]
    {
      rings := map[];
    }

    /** One pass over the cache: its size and the stalest host other than `host`. */
    method Survey(host: string) returns (total: int, oldest: string, oldestAt: int)
      requires Valid()
      ensures total == Total(rings)
      ensures oldest == "" ==> rings.Keys <= {host}
      ensures oldest != "" ==> Stalest(rings, {}, host, oldest, oldestAt)
    {
      hide MapSums.Sum, Bytes;
      total, oldest, oldestAt := 0, "", 0;
      var left := rings.Keys;
      NothingYet(rings);
      while left != {}
        invariant left <= rings.Keys && total == MapSums.Sum(Sizes(rings) - left)
        invariant oldest == "" ==> forall id :: id in rings && id !in left ==> id == host
        invariant oldest != "" ==> Stalest(rings, left, host, oldest, oldestAt)
      {
        var id :| id in left;
        var size := Weigh(rings[id]);
        if id != host && |rings[id]| > 0 && (oldest == "" || LastSeen(rings[id]) < oldestAt) {
          oldest, oldestAt := id, LastSeen(rings[id]);
        }
        OneMore(Sizes(rings), left, id);
        total := total + size;
        left := left - {id};
      }
      assert Sizes(rings) - left == Sizes(rings);
    }

    /** Appends a host's sample, trims its ring, and evicts other hosts while the whole
        cache is over budget. */
    method Put(host: string, sample: Entry, now: int)
      requires Valid() && host != ""
      modifies this
      ensures Valid()
      // this host keeps the longest run of newest samples that fits
      ensures host in rings && IsTrimmed(Ring(old(rings), host) + [sample], rings[host], now)
      ensures LastSeen(rings[host]) == sample.receivedAt
      // other hosts keep their ring or lose all of it
      ensures forall id :: id in rings && id != host ==> id in old(rings) && rings[id] == old(rings)[id]
      // an evicted host is no fresher than any that stays
      ensures forall gone, stays :: gone in old(rings) && gone !in rings && stays in rings && stays != host ==>
        LastSeen(old(rings)[gone]) <= LastSeen(rings[stays])
      // and the last eviction was needed
      ensures (forall id :: id in old(rings) ==> id in rings)
        || exists last :: last in old(rings) && last !in rings && Total(rings[last := old(rings)[last]]) > CACHE_BYTES
      // the budget holds, unless a single sample is over it
      ensures Total(rings) <= CACHE_BYTES || rings == map[host := [sample]]
    {
      hide Fits, Total, IsTrimmed, Bytes;
      var ring := Ring(rings, host) + [sample];
      var start := Trim(ring, now);
      rings := rings[host := ring[start..]];
      TrimmedIs(ring, start, now);
      Evict(host);
      if Total(rings) > CACHE_BYTES {
        OneRing(rings, host);
        OnlyTheSample(ring, rings[host], now);
      }
    }

    method Evict(host: string)
      requires Valid() && host in rings
      modifies this
      ensures Valid() && host in rings
      ensures forall id :: id in rings ==> id in old(rings) && rings[id] == old(rings)[id]
      ensures forall gone, stays :: gone in old(rings) && gone !in rings && stays in rings && stays != host ==>
        LastSeen(old(rings)[gone]) <= LastSeen(rings[stays])
      ensures (forall id :: id in old(rings) ==> id in rings)
        || exists last :: last in old(rings) && last !in rings && Total(rings[last := old(rings)[last]]) > CACHE_BYTES
      ensures Total(rings) <= CACHE_BYTES || rings.Keys == {host}
    {
      hide Total, Bytes;
      ghost var before, last := rings, "";
      while true
        invariant Valid() && host in rings
        invariant forall id :: id in rings ==> id in before && rings[id] == before[id]
        invariant forall gone, stays :: gone in before && gone !in rings && stays in rings && stays != host ==>
          LastSeen(before[gone]) <= LastSeen(rings[stays])
        invariant (forall id :: id in before ==> id in rings)
          || (last in before && last !in rings && Total(rings[last := before[last]]) > CACHE_BYTES)
        decreases |rings|
      {
        var total, oldest, oldestAt := Survey(host);
        if total <= CACHE_BYTES || oldest == "" { break; }
        MapSums.Smaller(rings, oldest);
        PutBack(rings, before, oldest);
        last := oldest;
        rings := rings - {oldest};
      }
    }

    /** The hourly clean-up: forgets hosts that have been silent for ten minutes. */
    method Prune(now: int)
      requires Valid()
      modifies this
      ensures Valid()
      ensures rings == map id | id in old(rings) && now - WINDOW <= LastSeen(old(rings)[id]) :: old(rings)[id]
    {
      var before := rings;
      var left := rings.Keys;
      while left != {}
        invariant left <= before.Keys && Valid()
        invariant rings == map id | id in before && (id in left || now - WINDOW <= LastSeen(before[id])) :: before[id]
      {
        var id :| id in left;
        if |rings[id]| == 0 || LastSeen(rings[id]) < now - WINDOW { rings := rings - {id}; }
        left := left - {id};
      }
    }
  }

  /** `kept` is the longest suffix of `ring` that fits. */
  ghost predicate IsTrimmed(ring: seq<Entry>, kept: seq<Entry>, now: int) {
    exists start: nat {:trigger ring[start..]} :: start < |ring| && kept == ring[start..] && Fits(kept, now)
      && forall k :: 0 <= k < start ==> !Fits(ring[k..], now)
  }

  lemma TrimmedIs(ring: seq<Entry>, start: nat, now: int)
    requires start < |ring| && Fits(ring[start..], now) && forall k :: 0 <= k < start ==> !Fits(ring[k..], now)
    ensures IsTrimmed(ring, ring[start..], now)
    ensures |ring[start..]| <= RING && (|ring[start..]| == 1 || Bytes(ring[start..]) <= RING_BYTES)
  {}

  lemma NothingYet(rings: Rings)
    ensures MapSums.Sum(Sizes(rings) - rings.Keys) == 0
  {
    assert Sizes(rings) - rings.Keys == map[];
  }

  lemma PutBack(rings: Rings, before: Rings, id: string)
    requires id in rings && id in before && rings[id] == before[id]
    ensures Total((rings - {id})[id := before[id]]) == Total(rings)
  {
    assert (rings - {id})[id := before[id]] == rings;
  }

  lemma OneMore(sizes: map<string, int>, left: set<string>, id: string)
    requires id in left && id in sizes
    ensures MapSums.Sum(sizes - (left - {id})) == MapSums.Sum(sizes - left) + sizes[id]
  {
    MapSums.SumPut(sizes - left, id, sizes[id]);
    assert (sizes - left)[id := sizes[id]] == sizes - (left - {id});
  }

  lemma OneRing(rings: Rings, host: string)
    requires rings.Keys == {host}
    ensures Total(rings) == Bytes(rings[host])
    ensures rings == map[host := rings[host]]
  {
    MapSums.SumPut(map[], host, Bytes(rings[host]));
    assert Sizes(rings) == map[host := Bytes(rings[host])];
  }

  lemma OnlyTheSample(ring: seq<Entry>, kept: seq<Entry>, now: int)
    requires |ring| > 0 && IsTrimmed(ring, kept, now) && Bytes(kept) > RING_BYTES
    ensures kept == [ring[|ring| - 1]]
  {}
}
