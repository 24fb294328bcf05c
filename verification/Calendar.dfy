/** Billing calendar: the proleptic Gregorian calendar, a time zone given by its
    local midnights, and the billing periods cut out of both.
    Instants are nanoseconds, days are counted from 1 January of year 1. */
module Calendar {

  const SECOND := 1_000_000_000
  const MINUTE := 60 * SECOND
  const HOUR := 3600 * SECOND
  const DAY := 24 * HOUR

  predicate Leap(year: int) {
    year % 4 == 0 && (year % 100 != 0 || year % 400 == 0)
  }

  function DaysBeforeYear(year: int): int {
    var y := year - 1;
    365 * y + y / 4 - y / 100 + y / 400
  }

  /** Days of month `month` (0 is January). */
  function DaysIn(month: int, leap: bool): int
    requires 0 <= month < 12
  {
    if month == 1 then (if leap then 29 else 28)
    else if month in [3, 5, 8, 10] then 30
    else 31
  }

  const DAYS_BEFORE := [0, 31, 59, 90, 120, 151, 181, 212, 243, 273, 304, 334, 365]

  function DaysBefore(month: int, leap: bool): int
    requires 0 <= month <= 12
  {
    DAYS_BEFORE[month] + if leap && 2 <= month then 1 else 0
  }

  /** First day of the month with index `k` = 12 * year + month. */
  function FirstDay(k: int): int {
    DaysBeforeYear(k / 12) + DaysBefore(k % 12, Leap(k / 12))
  }

  lemma Div4(y: int)
    ensures (y + 1) / 4 == y / 4 + if (y + 1) % 4 == 0 then 1 else 0
  {}

  lemma Div100(y: int)
    ensures (y + 1) / 100 == y / 100 + if (y + 1) % 100 == 0 then 1 else 0
  {}

  lemma Div400(y: int)
    ensures (y + 1) / 400 == y / 400 + if (y + 1) % 400 == 0 then 1 else 0
  {}

  lemma YearLength(year: int)
    ensures DaysBeforeYear(year + 1) == DaysBeforeYear(year) + DaysBefore(12, Leap(year))
  {
    Div4(year - 1);
    Div100(year - 1);
    Div400(year - 1);
    assert year % 400 == 0 ==> year % 100 == 0;
    assert year % 100 == 0 ==> year % 4 == 0;
  }

  /** Months follow each other without overlap, also across the turn of a year. */
  lemma NextMonth(k: int)
    ensures FirstDay(k + 1) == FirstDay(k) + DaysIn(k % 12, Leap(k / 12))
    ensures 28 <= FirstDay(k + 1) - FirstDay(k) <= 31
  {
    hide DaysBeforeYear, Leap;
    if k % 12 == 11 {
      YearLength(k / 12);
      assert (k + 1) / 12 == k / 12 + 1 && (k + 1) % 12 == 0;
    } else {
      assert (k + 1) / 12 == k / 12 && (k + 1) % 12 == k % 12 + 1;
    }
  }

  /** The month containing a day, searched from a starting guess. */
  function MonthFrom(k: int, day: int): (r: int)
    ensures FirstDay(r) <= day < FirstDay(r + 1)
    decreases day < FirstDay(k), if day < FirstDay(k) then FirstDay(k) - day else day - FirstDay(k)
  {
    hide FirstDay;
    NextMonth(k);
    NextMonth(k - 1);
    if day < FirstDay(k) then MonthFrom(k - 1, day)
    else if FirstDay(k + 1) <= day then MonthFrom(k + 1, day)
    else k
  }

  function MonthOf(day: int): (r: int)
    ensures FirstDay(r) <= day < FirstDay(r + 1)
  {
    MonthFrom(12 * (day / 366 + 1), day)
  }

  lemma {:induction false} MonthsIncrease(j: int, k: int)
    requires j <= k
    ensures FirstDay(j) + 28 * (k - j) <= FirstDay(k)
    decreases k - j
  {
    hide FirstDay;
    if j < k {
      NextMonth(k - 1);
      MonthsIncrease(j, k - 1);
    }
  }

  lemma MonthIsUnique(day: int, k: int)
    requires FirstDay(k) <= day < FirstDay(k + 1)
    ensures MonthOf(day) == k
  {
    hide FirstDay, MonthOf;
    var r := MonthOf(day);
    if r < k { MonthsIncrease(r + 1, k); }
    if k < r { MonthsIncrease(k + 1, r); }
  }

  /** A time zone: the local date of an instant, and the instant at which a local
      date begins. */
  datatype Zone = Zone(dayOf: int -> int, midnight: int -> int) {
    /** Every local midnight exists, and dates never run backwards. */
    ghost predicate Regular() {
      && (forall d, e :: d < e ==> midnight(d) < midnight(e))
      && (forall t :: midnight(dayOf(t)) <= t < midnight(dayOf(t) + 1))
    }

    lemma DayIsUnique(t: int, d: int)
      requires Regular() && midnight(d) <= t < midnight(d + 1)
      ensures dayOf(t) == d
    {
      var e := dayOf(t);
      assert e < d ==> e + 1 == d || midnight(e + 1) < midnight(d);
      assert d < e ==> d + 1 == e || midnight(d + 1) < midnight(e);
    }
  }

  function DayAt(offset: int, t: int): int {
    (t + offset) / DAY
  }

  function MidnightAt(offset: int, d: int): int {
    d * DAY - offset
  }

  function FixedOffset(offset: int): Zone {
    Zone(t => DayAt(offset, t), d => MidnightAt(offset, d))
  }

  lemma MidnightsIncrease(offset: int, d: int, e: int)
    requires d < e
    ensures MidnightAt(offset, d) < MidnightAt(offset, e)
  {}

  lemma DayContains(offset: int, t: int)
    ensures MidnightAt(offset, DayAt(offset, t)) <= t < MidnightAt(offset, DayAt(offset, t) + 1)
  {}

  /** A fixed offset from UTC is a regular zone. */
  lemma FixedOffsetIsRegular(offset: int)
    ensures FixedOffset(offset).Regular()
  {
    hide DayAt, MidnightAt;
    forall d, e | d < e ensures MidnightAt(offset, d) < MidnightAt(offset, e) { MidnightsIncrease(offset, d, e); }
    forall t ensures MidnightAt(offset, DayAt(offset, t)) <= t < MidnightAt(offset, DayAt(offset, t) + 1) {
      DayContains(offset, t);
    }
  }

  datatype Kind = Day | Month
  datatype Period = Period(start: int, end: int)

  /** The instant at which the billing cycle of month `k` begins. */
  function CycleStart(z: Zone, billingDay: int, k: int): int {
    z.midnight(FirstDay(k) + billingDay - 1)
  }

  function BillingPeriod(z: Zone, billingDay: int, kind: Kind, t: int): Period {
    var day := z.dayOf(t);
    match kind
    case Day => Period(z.midnight(day), z.midnight(day + 1))
    case Month =>
      var k := MonthOf(day);
      var cycle := if t < CycleStart(z, billingDay, k) then k - 1 else k;
      Period(CycleStart(z, billingDay, cycle), CycleStart(z, billingDay, cycle + 1))
  }

  ghost predicate ValidBilling(z: Zone, billingDay: int) {
    z.Regular() && 1 <= billingDay <= 28
  }

  lemma CyclesIncrease(z: Zone, billingDay: int, j: int, k: int)
    requires ValidBilling(z, billingDay)
    ensures j < k ==> CycleStart(z, billingDay, j) < CycleStart(z, billingDay, k)
  {
    hide FirstDay;
    if j < k { MonthsIncrease(j, k); }
  }

  /** The cycle that the code computes contains the instant. */
  lemma CycleOf(z: Zone, billingDay: int, t: int) returns (c: int)
    requires ValidBilling(z, billingDay)
    ensures CycleStart(z, billingDay, c) <= t < CycleStart(z, billingDay, c + 1)
    ensures BillingPeriod(z, billingDay, Month, t)
        == Period(CycleStart(z, billingDay, c), CycleStart(z, billingDay, c + 1))
  {
    hide FirstDay, MonthOf;
    var day := z.dayOf(t);
    var m := MonthOf(day);
    c := if t < CycleStart(z, billingDay, m) then m - 1 else m;
    NextMonth(m);
    NextMonth(m - 1);
    assert CycleStart(z, billingDay, m - 1) <= t by {
      assert FirstDay(m - 1) + billingDay - 1 < day;
      assert z.midnight(FirstDay(m - 1) + billingDay - 1) < z.midnight(day);
    }
    assert t < CycleStart(z, billingDay, m + 1) by {
      assert day + 1 <= FirstDay(m + 1) + billingDay - 1;
      assert day + 1 < FirstDay(m + 1) + billingDay - 1 ==> z.midnight(day + 1) < CycleStart(z, billingDay, m + 1);
    }
  }

  /** An instant lies in cycle `k` exactly when the code computes cycle `k` for it. */
  lemma CycleContains(z: Zone, billingDay: int, t: int, k: int)
    requires ValidBilling(z, billingDay)
    ensures CycleStart(z, billingDay, k) <= t < CycleStart(z, billingDay, k + 1)
      <==> BillingPeriod(z, billingDay, Month, t)
           == Period(CycleStart(z, billingDay, k), CycleStart(z, billingDay, k + 1))
  {
    hide CycleStart, BillingPeriod, ValidBilling;
    var c := CycleOf(z, billingDay, t);
    CyclesIncrease(z, billingDay, c + 1, k);
    CyclesIncrease(z, billingDay, k + 1, c);
    CyclesIncrease(z, billingDay, c, k);
    CyclesIncrease(z, billingDay, k, c);
  }

  lemma DaysPartitionTime(z: Zone, billingDay: int, t: int, u: int)
    requires ValidBilling(z, billingDay)
    ensures var p := BillingPeriod(z, billingDay, Day, t);
      && p.start <= t < p.end
      && (p.start <= u < p.end <==> BillingPeriod(z, billingDay, Day, u) == p)
      && BillingPeriod(z, billingDay, Day, p.end).start == p.end
  {
    var p, d := BillingPeriod(z, billingDay, Day, t), z.dayOf(t);
    assert z.midnight(d + 1) < z.midnight(d + 2);
    z.DayIsUnique(p.end, d + 1);
    if p.start <= u < p.end { z.DayIsUnique(u, d); }
  }

  lemma MonthsPartitionTime(z: Zone, billingDay: int, t: int, u: int)
    requires ValidBilling(z, billingDay)
    ensures var p := BillingPeriod(z, billingDay, Month, t);
      && p.start <= t < p.end
      && (p.start <= u < p.end <==> BillingPeriod(z, billingDay, Month, u) == p)
      && BillingPeriod(z, billingDay, Month, p.end).start == p.end
  {
    hide CycleStart, BillingPeriod, ValidBilling;
    var c := CycleOf(z, billingDay, t);
    CycleContains(z, billingDay, u, c);
    CyclesIncrease(z, billingDay, c + 1, c + 2);
    CycleContains(z, billingDay, CycleStart(z, billingDay, c + 1), c + 1);
  }

  /** Periods of one kind partition time: they contain their instants, every
      instant of a period is mapped to it, and the next one starts where it ends. */
  lemma PeriodsPartitionTime(z: Zone, billingDay: int, kind: Kind, t: int, u: int)
    requires ValidBilling(z, billingDay)
    ensures var p := BillingPeriod(z, billingDay, kind, t);
      && p.start <= t < p.end
      && (p.start <= u < p.end <==> BillingPeriod(z, billingDay, kind, u) == p)
      && BillingPeriod(z, billingDay, kind, p.end).start == p.end
  {
    hide BillingPeriod;
    match kind
    case Day => DaysPartitionTime(z, billingDay, t, u);
    case Month => MonthsPartitionTime(z, billingDay, t, u);
  }

  lemma CycleDays(z: Zone, billingDay: int, c: int)
    requires ValidBilling(z, billingDay)
    ensures CycleStart(z, billingDay, c) == z.midnight(FirstDay(c) + billingDay - 1)
    ensures z.dayOf(CycleStart(z, billingDay, c)) == FirstDay(c) + billingDay - 1
    ensures MonthOf(FirstDay(c) + billingDay - 1) == c
    ensures 28 <= FirstDay(c + 1) - FirstDay(c) <= 31
  {
    hide FirstDay, MonthOf;
    var a := FirstDay(c) + billingDay - 1;
    NextMonth(c);
    assert z.midnight(a) < z.midnight(a + 1);
    z.DayIsUnique(z.midnight(a), a);
    MonthIsUnique(a, c);
  }

  /** A monthly period starts on the billing day and covers 28 to 31 local days;
      a daily one covers exactly one. */
  lemma PeriodSpansCalendar(z: Zone, billingDay: int, kind: Kind, t: int)
    requires ValidBilling(z, billingDay)
    ensures var p := BillingPeriod(z, billingDay, kind, t);
      var first, next := z.dayOf(p.start), z.dayOf(p.end);
      && p.start == z.midnight(first) && p.end == z.midnight(next)
      && (kind == Day ==> next == first + 1)
      && (kind == Month ==> 28 <= next - first <= 31 && first == FirstDay(MonthOf(first)) + billingDay - 1)
  {
    hide FirstDay, MonthOf, CycleStart, BillingPeriod, ValidBilling;
    match kind {
      case Day => DaySpansItself(z, billingDay, t);
      case Month =>
        var c := CycleOf(z, billingDay, t);
        CycleDays(z, billingDay, c);
        CycleDays(z, billingDay, c + 1);
    }
  }

  lemma DaySpansItself(z: Zone, billingDay: int, t: int)
    requires ValidBilling(z, billingDay)
    ensures BillingPeriod(z, billingDay, Day, t) == Period(z.midnight(z.dayOf(t)), z.midnight(z.dayOf(t) + 1))
    ensures z.dayOf(z.midnight(z.dayOf(t))) == z.dayOf(t) && z.dayOf(z.midnight(z.dayOf(t) + 1)) == z.dayOf(t) + 1
  {
    var d := z.dayOf(t);
    assert z.midnight(d) < z.midnight(d + 1) < z.midnight(d + 2);
    z.DayIsUnique(z.midnight(d), d);
    z.DayIsUnique(z.midnight(d + 1), d + 1);
  }
}
