/** Byte counters per network interface, and how a counter delta is apportioned to
    the billing periods it crosses. Byte counts are naturals, so every subtraction
    of the source is a proof obligation here; fractions are exact. */
module Traffic {
  import opened Basics
  import opened Calendar
  import MapSums

  datatype Traffic = Traffic(rx: nat, tx: nat, rxPeak: real, txPeak: real)
  datatype Direction = Rx | Tx
  type Totals = map<string, Traffic>

  const NONE := Traffic(0, 0, 0.0, 0.0)
  const MAX_PERIODS := 366
  const MAX_INTERFACES := 512

  function Bytes(t: Traffic, dir: Direction): nat {
    match dir case Rx => t.rx case Tx => t.tx
  }

  function Peak(t: Traffic, dir: Direction): real {
    match dir case Rx => t.rxPeak case Tx => t.txPeak
  }

  function At(totals: Totals, name: string): Traffic {
    if name in totals then totals[name] else NONE
  }

  function Max(a: real, b: real): real {
    if a < b then b else a
  }

  function Plus(a: Traffic, b: Traffic): Traffic {
    Traffic(a.rx + b.rx, a.tx + b.tx, Max(a.rxPeak, b.rxPeak), Max(a.txPeak, b.txPeak))
  }

  function Joined(dst: Totals, src: Totals): Totals {
    map name | name in dst.Keys + src.Keys ::
      if name in src then Plus(At(dst, name), src[name]) else dst[name]
  }

  /** An entry joined from two has the sum of the bytes and the larger of the peaks. */
  ghost predicate Joins(c: Traffic, a: Traffic, b: Traffic, dir: Direction) {
    && Bytes(c, dir) == Bytes(a, dir) + Bytes(b, dir)
    && Peak(c, dir) >= Peak(a, dir) && Peak(c, dir) >= Peak(b, dir)
    && (Peak(c, dir) == Peak(a, dir) || Peak(c, dir) == Peak(b, dir))
  }

  /** An absent entry counts as zero. */
  lemma JoinedMeans(dst: Totals, src: Totals, name: string, dir: Direction)
    requires Peak(At(dst, name), dir) >= 0.0
    ensures Joins(At(Joined(dst, src), name), At(dst, name), At(src, name), dir)
    ensures name in Joined(dst, src) <==> name in dst || name in src
  {}

  method AddTraffic(dst: Totals, src: Totals) returns (sum: Totals)
    ensures sum == Joined(dst, src)
    ensures forall name, dir ::
      Peak(At(dst, name), dir) >= 0.0 ==> Joins(At(sum, name), At(dst, name), At(src, name), dir)
  {
    sum := dst;
    var names := src.Keys;
    while names != {}
      invariant names <= src.Keys
      invariant sum.Keys == dst.Keys + (src.Keys - names)
      invariant forall n :: n in sum ==> sum[n] == if n in src.Keys - names then Plus(At(dst, n), src[n]) else dst[n]
    {
      var name :| name in names;
      sum := sum[name := Plus(At(sum, name), src[name])];
      names := names - {name};
    }
    assert sum == Joined(dst, src);
    forall name, dir | Peak(At(dst, name), dir) >= 0.0
      ensures Joins(At(sum, name), At(dst, name), At(src, name), dir)
    {
      JoinedMeans(dst, src, name, dir);
    }
  }

  // ---- apportioning one delta to the periods between two samples ----

  /** The part of `bytes` proportional to `span` out of `whole`, rounded down. */
  function Floor(bytes: nat, span: nat, whole: nat): nat
    requires whole > 0
  {
    bytes * span / whole
  }

  /** Bytes given to the slice [cursor, until) of the interval [from, to): its share
      by elapsed time, rounded down, or all that is left for the last slice. */
  function Share(bytes: nat, left: nat, from: int, to: int, cursor: int, until: int): nat
    requires from < to && cursor <= until
  {
    if until < to then Floor(bytes, until - cursor, to - from) else left
  }

  /** What is left is never less than the share of the time still to be covered. */
  predicate Covers(bytes: nat, left: nat, from: int, to: int, cursor: int) {
    bytes * (to - cursor) <= left * (to - from)
  }

  lemma ShareFits(bytes: nat, left: nat, from: int, to: int, cursor: int, until: int)
    requires from < to && cursor <= until <= to && Covers(bytes, left, from, to, cursor)
    ensures var p := Share(bytes, left, from, to, cursor, until);
      p <= left && Covers(bytes, left - p, from, to, until)
  {
    var t, p := to - from, Share(bytes, left, from, to, cursor, until);
    if until < to {
      FloorDiv(bytes * (until - cursor), t);
      assert p * t <= bytes * (until - cursor);
      assert bytes * (to - cursor) == bytes * (until - cursor) + bytes * (to - until);
      assert bytes * (to - until) >= 0;
      if left < p {
        MulLess(left, p, t);
      }
      assert (left - p) * t == left * t - p * t;
    } else {
      assert bytes * (to - until) == 0;
    }
  }

  lemma FloorDiv(a: nat, b: nat)
    requires b > 0
    ensures a / b * b <= a < a / b * b + b
  {
    assert a == a / b * b + a % b;
  }

  lemma MulLess(a: nat, b: nat, c: nat)
    requires a < b && 0 < c
    ensures a * c < b * c
  {}

  predicate AllCovered(traffic: Totals, left: Totals, from: int, to: int, cursor: int) {
    && left.Keys == traffic.Keys
    && forall n, dir :: n in traffic ==> Covers(Bytes(traffic[n], dir), Bytes(left[n], dir), from, to, cursor)
  }

  function PortionOf(traffic: Totals, left: Totals, from: int, to: int, cursor: int, until: int): Totals
    requires from < to && cursor <= until && left.Keys == traffic.Keys
  {
    map n | n in traffic :: traffic[n].(
      rx := Share(traffic[n].rx, left[n].rx, from, to, cursor, until),
      tx := Share(traffic[n].tx, left[n].tx, from, to, cursor, until))
  }

  function Without(left: Totals, portion: Totals): Totals
    requires portion.Keys == left.Keys
    requires forall n, dir :: n in left ==> Bytes(portion[n], dir) <= Bytes(left[n], dir)
  {
    map n | n in left ::
      assert Bytes(portion[n], Rx) <= Bytes(left[n], Rx) && Bytes(portion[n], Tx) <= Bytes(left[n], Tx);
      left[n].(rx := left[n].rx - portion[n].rx, tx := left[n].tx - portion[n].tx)
  }

  lemma PortionFits(traffic: Totals, left: Totals, from: int, to: int, cursor: int, until: int)
    requires from < to && cursor <= until <= to && AllCovered(traffic, left, from, to, cursor)
    ensures var p := PortionOf(traffic, left, from, to, cursor, until);
      && (forall n, dir :: n in left ==> Bytes(p[n], dir) <= Bytes(left[n], dir))
      && AllCovered(traffic, Without(left, p), from, to, until)
  {
    hide Share, Covers;
    var p := PortionOf(traffic, left, from, to, cursor, until);
    forall n, dir | n in left
      ensures Bytes(p[n], dir) <= Bytes(left[n], dir)
      ensures Covers(Bytes(traffic[n], dir), Bytes(left[n], dir) - Bytes(p[n], dir), from, to, until)
    {
      ShareFits(Bytes(traffic[n], dir), Bytes(left[n], dir), from, to, cursor, until);
    }
    var rest := Without(left, p);
    forall n, dir | n in traffic
      ensures Covers(Bytes(traffic[n], dir), Bytes(rest[n], dir), from, to, until)
    {
      assert Bytes(rest[n], dir) == Bytes(left[n], dir) - Bytes(p[n], dir);
    }
  }

  /** Rows of one period kind, keyed by the start of the period. */
  type Rows = map<int, Totals>

  function Row(rows: Rows, start: int): Totals {
    if start in rows then rows[start] else map[]
  }

  datatype Allocation = Allocation(rows: Rows, left: Totals)

  function Allocate(z: Zone, billingDay: int, kind: Kind, traffic: Totals, from: int, to: int,
                    cursor: int, a: Allocation, i: nat): Allocation
    requires ValidBilling(z, billingDay) && from < to && i <= MAX_PERIODS
    requires cursor <= to && AllCovered(traffic, a.left, from, to, cursor)
    decreases MAX_PERIODS - i
  {
    if cursor < to && i < MAX_PERIODS then
      var p := BillingPeriod(z, billingDay, kind, cursor);
      var until := Least(p.end, to);
      PeriodsPartitionTime(z, billingDay, kind, cursor, cursor);
      PortionFits(traffic, a.left, from, to, cursor, until);
      var portion := PortionOf(traffic, a.left, from, to, cursor, until);
      Allocate(z, billingDay, kind, traffic, from, to, until,
               Allocation(a.rows[p.start := Joined(Row(a.rows, p.start), portion)], Without(a.left, portion)), i + 1)
    else a
  }

  /** Number of periods of the kind that [cursor, to) touches. */
  ghost function Crossed(z: Zone, billingDay: int, kind: Kind, cursor: int, to: int): nat
    requires ValidBilling(z, billingDay)
    decreases if to <= cursor then 0 else to - cursor
  {
    if to <= cursor then 0
    else
      PeriodsPartitionTime(z, billingDay, kind, cursor, cursor);
      1 + Crossed(z, billingDay, kind, BillingPeriod(z, billingDay, kind, cursor).end, to)
  }

  ghost function PerRow(rows: Rows, name: string, dir: Direction): map<int, int> {
    map k | k in rows :: Bytes(At(rows[k], name), dir)
  }

  /** All bytes recorded for an interface in the rows of one kind. */
  ghost function Total(rows: Rows, name: string, dir: Direction): int {
    MapSums.Sum(PerRow(rows, name, dir))
  }

  lemma PerRowPut(rows: Rows, k: int, row: Totals, name: string, dir: Direction)
    ensures PerRow(rows[k := row], name, dir) == PerRow(rows, name, dir)[k := Bytes(At(row, name), dir)]
  {
    hide At, Bytes;
    var after, put := PerRow(rows[k := row], name, dir), PerRow(rows, name, dir)[k := Bytes(At(row, name), dir)];
    assert after.Keys == put.Keys;
    forall j | j in after ensures after[j] == put[j] {}
  }

  lemma TotalPut(rows: Rows, k: int, row: Totals, name: string, dir: Direction)
    ensures Total(rows[k := row], name, dir)
         == Total(rows, name, dir) + Bytes(At(row, name), dir) - Bytes(At(Row(rows, k), name), dir)
  {
    PerRowPut(rows, k, row, name, dir);
    MapSums.SumPut(PerRow(rows, name, dir), k, Bytes(At(row, name), dir));
  }

  ghost predicate Splits(rows: Rows, kept: Rows, lost: Rows) {
    && kept.Keys !! lost.Keys && kept.Keys + lost.Keys == rows.Keys
    && (forall k :: k in kept ==> kept[k] == rows[k])
    && (forall k :: k in lost ==> lost[k] == rows[k])
  }

  lemma PerRowOfPart(rows: Rows, part: Rows, name: string, dir: Direction)
    requires part.Keys <= rows.Keys && forall k :: k in part ==> part[k] == rows[k]
    ensures PerRow(part, name, dir).Keys == part.Keys && PerRow(rows, name, dir).Keys == rows.Keys
    ensures forall k :: k in part ==> PerRow(part, name, dir)[k] == PerRow(rows, name, dir)[k]
  {
    hide At, Bytes;
  }

  lemma TotalSplits(rows: Rows, kept: Rows, lost: Rows, name: string, dir: Direction)
    requires Splits(rows, kept, lost)
    ensures Total(rows, name, dir) == Total(kept, name, dir) + Total(lost, name, dir)
  {
    PerRowOfPart(rows, kept, name, dir);
    PerRowOfPart(rows, lost, name, dir);
    hide PerRow;
    MapSums.SumSplit(PerRow(rows, name, dir), PerRow(kept, name, dir), PerRow(lost, name, dir));
  }

  lemma JoinedBytes(dst: Totals, src: Totals, name: string, dir: Direction)
    ensures Bytes(At(Joined(dst, src), name), dir) == Bytes(At(dst, name), dir) + Bytes(At(src, name), dir)
  {}

  /** One slice moves its bytes from what is left into its row. */
  lemma SliceConserves(rows: Rows, k: int, left: Totals, portion: Totals, name: string, dir: Direction)
    requires portion.Keys == left.Keys
    requires forall n, d :: n in left ==> Bytes(portion[n], d) <= Bytes(left[n], d)
    ensures Total(rows[k := Joined(Row(rows, k), portion)], name, dir) + Bytes(At(Without(left, portion), name), dir)
         == Total(rows, name, dir) + Bytes(At(left, name), dir)
  {
    hide Total;
    TotalPut(rows, k, Joined(Row(rows, k), portion), name, dir);
    JoinedBytes(Row(rows, k), portion, name, dir);
    if name in left {
      assert Bytes(At(portion, name), dir) <= Bytes(At(left, name), dir);
    }
  }

  /** Apportioning conserves bytes: what the rows gain and what remains unallotted
      always add up to what there was to allot. */
  lemma {:induction false} ApportioningConserves(z: Zone, billingDay: int, kind: Kind, traffic: Totals, from: int,
                                                 to: int,
                                                 cursor: int, a: Allocation, i: nat, name: string, dir: Direction)
    requires ValidBilling(z, billingDay) && from < to && i <= MAX_PERIODS
    requires cursor <= to && AllCovered(traffic, a.left, from, to, cursor)
    ensures var b := Allocate(z, billingDay, kind, traffic, from, to, cursor, a, i);
      Total(b.rows, name, dir) + Bytes(At(b.left, name), dir) == Total(a.rows, name, dir) + Bytes(At(a.left, name), dir)
    decreases MAX_PERIODS - i
  {
    hide Total, Joined, Covers, BillingPeriod;
    if cursor < to && i < MAX_PERIODS {
      var p := BillingPeriod(z, billingDay, kind, cursor);
      var until := Least(p.end, to);
      PeriodsPartitionTime(z, billingDay, kind, cursor, cursor);
      PortionFits(traffic, a.left, from, to, cursor, until);
      var portion := PortionOf(traffic, a.left, from, to, cursor, until);
      SliceConserves(a.rows, p.start, a.left, portion, name, dir);
      ApportioningConserves(z, billingDay, kind, traffic, from, to, until,
        Allocation(a.rows[p.start := Joined(Row(a.rows, p.start), portion)], Without(a.left, portion)),
        i + 1, name, dir);
    }
  }

  lemma CrossedStep(z: Zone, billingDay: int, kind: Kind, cursor: int, to: int)
    requires ValidBilling(z, billingDay) && cursor < to
    ensures var end := BillingPeriod(z, billingDay, kind, cursor).end;
      Crossed(z, billingDay, kind, cursor, to) == 1 + Crossed(z, billingDay, kind, Least(end, to), to)
  {
    hide BillingPeriod;
    PeriodsPartitionTime(z, billingDay, kind, cursor, cursor);
  }

  /** Nothing of a delta is lost exactly when the gap touches at most 366 periods
      (or there was nothing to record). */
  lemma {:induction false} LossIffTooManyPeriods(z: Zone, billingDay: int, kind: Kind, traffic: Totals, from: int,
                                                 to: int,
                                                 cursor: int, a: Allocation, i: nat, name: string, dir: Direction)
    requires ValidBilling(z, billingDay) && from < to && i <= MAX_PERIODS
    requires cursor < to && AllCovered(traffic, a.left, from, to, cursor)
    requires name in traffic && Bytes(a.left[name], dir) <= Bytes(traffic[name], dir)
    ensures var b := Allocate(z, billingDay, kind, traffic, from, to, cursor, a, i);
      && b.left.Keys == traffic.Keys
      && (Bytes(b.left[name], dir) == 0
          <==> Bytes(traffic[name], dir) == 0 || Crossed(z, billingDay, kind, cursor, to) <= MAX_PERIODS - i)
    decreases MAX_PERIODS - i
  {
    hide Joined, BillingPeriod, Crossed, Covers, Floor;
    CrossedStep(z, billingDay, kind, cursor, to);
    var d := Bytes(traffic[name], dir);
    if i < MAX_PERIODS {
      var p := BillingPeriod(z, billingDay, kind, cursor);
      var until := Least(p.end, to);
      PeriodsPartitionTime(z, billingDay, kind, cursor, cursor);
      PortionFits(traffic, a.left, from, to, cursor, until);
      var portion := PortionOf(traffic, a.left, from, to, cursor, until);
      var next := Allocation(a.rows[p.start := Joined(Row(a.rows, p.start), portion)], Without(a.left, portion));
      if until < to {
        LossIffTooManyPeriods(z, billingDay, kind, traffic, from, to, until, next, i + 1, name, dir);
      } else {
        NoneCrossed(z, billingDay, kind, to);
        assert Bytes(next.left[name], dir) == 0;
      }
    } else if d > 0 {
      SomethingLeft(d, Bytes(a.left[name], dir), from, to, cursor);
    }
  }

  lemma SomethingLeft(bytes: nat, left: nat, from: int, to: int, cursor: int)
    requires from < to && cursor < to && 0 < bytes && Covers(bytes, left, from, to, cursor)
    ensures 0 < left
  {
    MulLess(0, bytes, to - cursor);
  }

  lemma NoneCrossed(z: Zone, billingDay: int, kind: Kind, to: int)
    requires ValidBilling(z, billingDay)
    ensures Crossed(z, billingDay, kind, to, to) == 0
  {}

  /** Rows of periods that do not meet the interval stay as they were. */
  lemma {:induction false} OtherRowsUntouched(z: Zone, billingDay: int, kind: Kind, traffic: Totals, from: int, to: int,
                                              cursor: int, a: Allocation, i: nat, k: int)
    requires ValidBilling(z, billingDay) && from < to && i <= MAX_PERIODS
    requires cursor <= to && AllCovered(traffic, a.left, from, to, cursor)
    requires forall t :: cursor <= t < to ==> BillingPeriod(z, billingDay, kind, t).start != k
    ensures var b := Allocate(z, billingDay, kind, traffic, from, to, cursor, a, i);
      (k in b.rows <==> k in a.rows) && Row(b.rows, k) == Row(a.rows, k)
    decreases MAX_PERIODS - i
  {
    hide Joined, Covers, BillingPeriod;
    if cursor < to && i < MAX_PERIODS {
      var p := BillingPeriod(z, billingDay, kind, cursor);
      var until := Least(p.end, to);
      PeriodsPartitionTime(z, billingDay, kind, cursor, cursor);
      PortionFits(traffic, a.left, from, to, cursor, until);
      var portion := PortionOf(traffic, a.left, from, to, cursor, until);
      OtherRowsUntouched(z, billingDay, kind, traffic, from, to, until,
        Allocation(a.rows[p.start := Joined(Row(a.rows, p.start), portion)], Without(a.left, portion)), i + 1, k);
    }
  }

  lemma StartsAfter(z: Zone, billingDay: int, kind: Kind, cursor: int, t: int)
    requires ValidBilling(z, billingDay)
    requires BillingPeriod(z, billingDay, kind, cursor).end <= t
    ensures BillingPeriod(z, billingDay, kind, cursor).end <= BillingPeriod(z, billingDay, kind, t).start
  {
    hide BillingPeriod;
    var p, q := BillingPeriod(z, billingDay, kind, cursor), BillingPeriod(z, billingDay, kind, t);
    PeriodsPartitionTime(z, billingDay, kind, cursor, cursor);
    PeriodsPartitionTime(z, billingDay, kind, t, p.end - 1);
    PeriodsPartitionTime(z, billingDay, kind, cursor, p.end - 1);
  }

  /** The row of the first period of the interval receives the first portion only. */
  lemma FirstRowGain(z: Zone, billingDay: int, kind: Kind, traffic: Totals, from: int, to: int,
                     cursor: int, a: Allocation, i: nat, name: string, dir: Direction)
    requires ValidBilling(z, billingDay) && from < to && i < MAX_PERIODS
    requires cursor < to && AllCovered(traffic, a.left, from, to, cursor) && name in traffic
    ensures var b := Allocate(z, billingDay, kind, traffic, from, to, cursor, a, i);
      var p := BillingPeriod(z, billingDay, kind, cursor);
      && cursor < p.end
      && Bytes(At(Row(b.rows, p.start), name), dir)
         == Bytes(At(Row(a.rows, p.start), name), dir)
            + Share(Bytes(traffic[name], dir), Bytes(a.left[name], dir), from, to, cursor, Least(p.end, to))
  {
    hide Joined, BillingPeriod, Covers, Share;
    var p := BillingPeriod(z, billingDay, kind, cursor);
    var until := Least(p.end, to);
    PeriodsPartitionTime(z, billingDay, kind, cursor, cursor);
    PortionFits(traffic, a.left, from, to, cursor, until);
    var portion := PortionOf(traffic, a.left, from, to, cursor, until);
    var next := Allocation(a.rows[p.start := Joined(Row(a.rows, p.start), portion)], Without(a.left, portion));
    forall u | until <= u < to ensures BillingPeriod(z, billingDay, kind, u).start != p.start {
      StartsAfter(z, billingDay, kind, cursor, u);
    }
    OtherRowsUntouched(z, billingDay, kind, traffic, from, to, until, next, i + 1, p.start);
    JoinedBytes(Row(a.rows, p.start), portion, name, dir);
  }

  /** One turn of the loop, seen from any other row. */
  lemma AllocateTurn(z: Zone, billingDay: int, kind: Kind, traffic: Totals, from: int, to: int, cursor: int,
                     a: Allocation, i: nat)
    returns (until: int, next: Allocation)
    requires ValidBilling(z, billingDay) && from < to && i < MAX_PERIODS
    requires cursor < to && AllCovered(traffic, a.left, from, to, cursor)
    ensures until == Least(BillingPeriod(z, billingDay, kind, cursor).end, to) && cursor < until
    ensures AllCovered(traffic, next.left, from, to, until)
    ensures Allocate(z, billingDay, kind, traffic, from, to, cursor, a, i)
         == Allocate(z, billingDay, kind, traffic, from, to, until, next, i + 1)
    ensures forall k :: k != BillingPeriod(z, billingDay, kind, cursor).start ==> Row(next.rows, k) == Row(a.rows, k)
  {
    hide Joined, BillingPeriod, Covers, Share;
    var p := BillingPeriod(z, billingDay, kind, cursor);
    PeriodsPartitionTime(z, billingDay, kind, cursor, cursor);
    until := Least(p.end, to);
    PortionFits(traffic, a.left, from, to, cursor, until);
    var portion := PortionOf(traffic, a.left, from, to, cursor, until);
    next := Allocation(a.rows[p.start := Joined(Row(a.rows, p.start), portion)], Without(a.left, portion));
  }

  /** Each period that ends inside the interval receives exactly the floor of its
      share of the elapsed time. */
  lemma {:induction false} RowGainsItsShare(z: Zone, billingDay: int, kind: Kind, traffic: Totals, from: int, to: int,
                                            cursor: int, a: Allocation, i: nat, t: int, name: string, dir: Direction)
    requires ValidBilling(z, billingDay) && from < to && i <= MAX_PERIODS
    requires cursor <= to && AllCovered(traffic, a.left, from, to, cursor)
    requires name in traffic && cursor <= t < to && BillingPeriod(z, billingDay, kind, t).end < to
    requires Crossed(z, billingDay, kind, cursor, t + 1) <= MAX_PERIODS - i
    ensures var b := Allocate(z, billingDay, kind, traffic, from, to, cursor, a, i);
      var p := BillingPeriod(z, billingDay, kind, t);
      var begin := if p.start < cursor then cursor else p.start;
      && begin <= p.end
      && Bytes(At(Row(b.rows, p.start), name), dir)
         == Bytes(At(Row(a.rows, p.start), name), dir) + Floor(Bytes(traffic[name], dir), p.end - begin, to - from)
    decreases MAX_PERIODS - i
  {
    hide BillingPeriod, Crossed, Share, Floor, ValidBilling, At, Row, Allocate, Bytes, Covers;
    var p := BillingPeriod(z, billingDay, kind, cursor);
    PeriodsPartitionTime(z, billingDay, kind, cursor, t);
    PeriodsPartitionTime(z, billingDay, kind, cursor, cursor);
    CrossedStep(z, billingDay, kind, cursor, t + 1);
    if t < p.end {
      FirstRowGain(z, billingDay, kind, traffic, from, to, cursor, a, i, name, dir);
      ShareOfWhole(Bytes(traffic[name], dir), Bytes(a.left[name], dir), from, to, cursor, p.end);
    } else {
      var until, next := AllocateTurn(z, billingDay, kind, traffic, from, to, cursor, a, i);
      StartsAfter(z, billingDay, kind, cursor, t);
      RowGainsItsShare(z, billingDay, kind, traffic, from, to, until, next, i + 1, t, name, dir);
    }
  }

  lemma ShareOfWhole(bytes: nat, left: nat, from: int, to: int, cursor: int, end: int)
    requires from < to && cursor < end < to
    ensures Share(bytes, left, from, to, cursor, end) == Floor(bytes, end - cursor, to - from)
  {}

  // ---- the loop of the source ----

  predicate Bounded(rows: Rows) {
    forall k :: k in rows ==> |rows[k]| <= MAX_INTERFACES
  }

  lemma KeysGrow(dst: Totals, src: Totals)
    ensures |dst| <= |Joined(dst, src)|
  {
    var big := Joined(dst, src).Keys;
    assert dst.Keys <= big;
    MapSums.SubsetIsSmaller(dst.Keys, big);
  }

  lemma {:induction false} RowsOnlyGrow(z: Zone, billingDay: int, kind: Kind, traffic: Totals, from: int, to: int,
                                        cursor: int, a: Allocation, i: nat, k: int)
    requires ValidBilling(z, billingDay) && from < to && i <= MAX_PERIODS
    requires cursor <= to && AllCovered(traffic, a.left, from, to, cursor)
    requires k in a.rows
    ensures var b := Allocate(z, billingDay, kind, traffic, from, to, cursor, a, i);
      k in b.rows && |a.rows[k]| <= |b.rows[k]|
    decreases MAX_PERIODS - i
  {
    hide Joined, Covers, BillingPeriod;
    if cursor < to && i < MAX_PERIODS {
      var p := BillingPeriod(z, billingDay, kind, cursor);
      var until := Least(p.end, to);
      PeriodsPartitionTime(z, billingDay, kind, cursor, cursor);
      PortionFits(traffic, a.left, from, to, cursor, until);
      var portion := PortionOf(traffic, a.left, from, to, cursor, until);
      KeysGrow(Row(a.rows, p.start), portion);
      RowsOnlyGrow(z, billingDay, kind, traffic, from, to, until,
        Allocation(a.rows[p.start := Joined(Row(a.rows, p.start), portion)], Without(a.left, portion)), i + 1, k);
    }
  }

  lemma WholeIsCovered(traffic: Totals, from: int, to: int)
    requires from < to
    ensures AllCovered(traffic, Joined(map[], traffic), from, to, from)
  {
    var left := Joined(map[], traffic);
    forall n, dir | n in traffic ensures Bytes(left[n], dir) == Bytes(traffic[n], dir) {}
  }

  /** The whole delta of one sample, apportioned from the previous sample on. */
  function Apportion(z: Zone, billingDay: int, kind: Kind, traffic: Totals, from: int, to: int, rows: Rows): Allocation
    requires ValidBilling(z, billingDay)
  {
    if |traffic| == 0 || to <= from then Allocation(rows, map[])
    else
      WholeIsCovered(traffic, from, to);
      Allocate(z, billingDay, kind, traffic, from, to, from, Allocation(rows, Joined(map[], traffic)), 0)
  }

  /** Bytes are recorded in full exactly when the gap touches at most 366 periods:
      rows gain the delta minus what is left over, and the two conditions for a
      leftover are exact. */
  lemma ApportionTotals(z: Zone, billingDay: int, kind: Kind, traffic: Totals, from: int, to: int, rows: Rows,
                        name: string, dir: Direction)
    requires ValidBilling(z, billingDay) && from < to
    ensures var b, d := Apportion(z, billingDay, kind, traffic, from, to, rows), Bytes(At(traffic, name), dir);
      && Total(b.rows, name, dir) + Bytes(At(b.left, name), dir) == Total(rows, name, dir) + d
      && (Bytes(At(b.left, name), dir) == 0
          <==> d == 0 || Crossed(z, billingDay, kind, from, to) <= MAX_PERIODS)
  {
    hide Total, Crossed, Allocate, Covers;
    if |traffic| != 0 {
      WholeIsCovered(traffic, from, to);
      var a := Allocation(rows, Joined(map[], traffic));
      assert Bytes(At(a.left, name), dir) == Bytes(At(traffic, name), dir);
      ApportioningConserves(z, billingDay, kind, traffic, from, to, from, a, 0, name, dir);
      var witnessName: string :| witnessName in traffic;
      LossIffTooManyPeriods(z, billingDay, kind, traffic, from, to, from, a, 0,
                            if name in traffic then name else witnessName, dir);
    } else {
      assert traffic == map[];
    }
  }

  lemma {:induction false} UtcDaysCrossed(billingDay: int, n: nat, m: nat)
    requires 1 <= billingDay <= 28 && n <= m
    ensures FixedOffset(0).Regular()
    ensures Crossed(FixedOffset(0), billingDay, Day, n * DAY, m * DAY) == m - n
    decreases m - n
  {
    hide BillingPeriod;
    FixedOffsetIsRegular(0);
    if n < m {
      UtcDaysCrossed(billingDay, n + 1, m);
      CrossedDay(billingDay, n, m);
    }
  }

  lemma CrossedDay(billingDay: int, n: nat, m: nat)
    requires 1 <= billingDay <= 28 && n < m
    ensures FixedOffset(0).Regular()
    ensures Crossed(FixedOffset(0), billingDay, Day, n * DAY, m * DAY)
         == 1 + Crossed(FixedOffset(0), billingDay, Day, (n + 1) * DAY, m * DAY)
  {
    FixedOffsetIsRegular(0);
    UtcDay(billingDay, n);
    hide BillingPeriod, FixedOffset;
  }

  lemma UtcDay(billingDay: int, n: nat)
    ensures BillingPeriod(FixedOffset(0), billingDay, Day, n * DAY).end == (n + 1) * DAY
  {}

  /** A host silent for more than 366 days: the daily totals lose some of every
      non-empty delta, whatever its size. */
  lemma LongSilenceLosesBytes(billingDay: int, traffic: Totals, n: nat, m: nat, rows: Rows, name: string,
                              dir: Direction)
    requires 1 <= billingDay <= 28 && n + MAX_PERIODS < m
    requires Bytes(At(traffic, name), dir) > 0
    ensures FixedOffset(0).Regular()
    ensures Total(Apportion(FixedOffset(0), billingDay, Day, traffic, n * DAY, m * DAY, rows).rows, name, dir)
            < Total(rows, name, dir) + Bytes(At(traffic, name), dir)
  {
    hide Total, Crossed, Apportion;
    UtcDaysCrossed(billingDay, n, m);
    ApportionTotals(FixedOffset(0), billingDay, Day, traffic, n * DAY, m * DAY, rows, name, dir);
  }

  /** One slice for every interface: its portion, and what is left after it. */
  method Slice(traffic: Totals, left: Totals, from: int, to: int, cursor: int, until: int)
    returns (portion: Totals, rest: Totals)
    requires from < to && cursor <= until <= to && AllCovered(traffic, left, from, to, cursor)
    ensures portion == PortionOf(traffic, left, from, to, cursor, until)
    ensures (forall n, dir :: n in left ==> Bytes(portion[n], dir) <= Bytes(left[n], dir))
    ensures rest == Without(left, portion) && AllCovered(traffic, rest, from, to, until)
  {
    hide Share, Covers;
    PortionFits(traffic, left, from, to, cursor, until);
    ghost var all := PortionOf(traffic, left, from, to, cursor, until);
    portion, rest := map[], left;
    var names := traffic.Keys;
    while names != {}
      invariant names <= traffic.Keys && portion.Keys == traffic.Keys - names && rest.Keys == left.Keys
      invariant forall n :: n in portion ==> portion[n] == all[n] && rest[n] == Without(left, all)[n]
      invariant forall n :: n in names ==> rest[n] == left[n]
    {
      var name :| name in names;
      var t := traffic[name];
      var p := t.(rx := Share(t.rx, left[name].rx, from, to, cursor, until),
                  tx := Share(t.tx, left[name].tx, from, to, cursor, until));
      assert p == all[name];
      assert Bytes(p, Rx) <= Bytes(left[name], Rx) && Bytes(p, Tx) <= Bytes(left[name], Tx);
      rest := rest[name := rest[name].(rx := rest[name].rx - p.rx, tx := rest[name].tx - p.tx)];
      portion := portion[name := p];
      names := names - {name};
    }
    assert portion == all;
    assert rest == Without(left, all);
  }

  /** Adds a delta to the rows of one period kind. The transaction is abandoned
      exactly when some row would hold more than 512 interfaces. */
  method PersistTraffic(z: Zone, billingDay: int, kind: Kind, traffic: Totals, from: int, to: int, rows: Rows)
    returns (ok: bool, out: Rows)
    requires ValidBilling(z, billingDay) && Bounded(rows)
    ensures ok <==> Bounded(Apportion(z, billingDay, kind, traffic, from, to, rows).rows)
    ensures out == if ok then Apportion(z, billingDay, kind, traffic, from, to, rows).rows else rows
  {
    hide Joined, PortionOf, Without, Covers, BillingPeriod, AllCovered, ValidBilling, Bytes;
    ok, out := true, rows;
    if |traffic| == 0 || to <= from { return; }
    var left := AddTraffic(map[], traffic);
    WholeIsCovered(traffic, from, to);
    var cursor, i := from, 0;
    while cursor < to && i < MAX_PERIODS
      invariant 0 <= i <= MAX_PERIODS && cursor <= to && AllCovered(traffic, left, from, to, cursor)
      invariant Bounded(out)
      invariant Apportion(z, billingDay, kind, traffic, from, to, rows)
             == Allocate(z, billingDay, kind, traffic, from, to, cursor, Allocation(out, left), i)
      decreases MAX_PERIODS - i
    {
      PeriodsPartitionTime(z, billingDay, kind, cursor, cursor);
      var p := BillingPeriod(z, billingDay, kind, cursor);
      var until := Least(p.end, to);
      var portion, rest := Slice(traffic, left, from, to, cursor, until);
      var totals := AddTraffic(Row(out, p.start), portion);
      out, left, cursor, i := out[p.start := totals], rest, until, i + 1;
      if |totals| > MAX_INTERFACES {
        RowsOnlyGrow(z, billingDay, kind, traffic, from, to, cursor, Allocation(out, left), i, p.start);
        return false, rows;
      }
    }
  }
}
