/** Hourly readings added up by hour or by day of Moscow time. */
module EnergyHourly {
  import opened Wrappers
  import opened Sequences

  /** One stored hour of one meter; `hour` is in seconds since the epoch. */
  datatype Reading = Reading(meter: int, hour: int, kwh: real)

  datatype Group = Hour | Day

  const HOUR: int := 3_600
  const DAY: int := 86_400
  const MSK: int := 10_800

  /** Days of Moscow time, counted from the epoch; a bound or a meter list left out does not filter. */
  datatype Query = Query(first: Option<int>, last: Option<int>, meters: Option<set<int>>)

  datatype Bucket = Bucket(kwh: real, parts: map<int, real>)

  datatype Point = Point(t: int, bucket: Bucket)

  datatype Report = Report(series: seq<Point>, total: real, avg: Option<real>, peak: Option<Point>)

  function MidnightOf(day: int): int {
    day * DAY - MSK
  }

  predicate Selects(q: Query, r: Reading) {
    && (q.first.Some? ==> r.hour >= MidnightOf(q.first.value))
    && (q.last.Some? ==> r.hour < MidnightOf(q.last.value + 1))
    && (q.meters.Some? ==> r.meter in q.meters.value)
  }

  /** The number of the hour or day of Moscow time that `r` falls in. */
  function KeyOf(group: Group, r: Reading): int {
    match group
    case Hour => (r.hour + MSK) / HOUR
    case Day => (r.hour + MSK) / DAY
  }

  /** The calendar day of Moscow, three hours ahead, on which the reading falls, counted from the epoch. */
  function MoscowDay(r: Reading): int {
    (r.hour + 3 * 3_600) / (24 * 3_600)
  }

  /** A report takes the readings of its meters whose Moscow day lies within its period, both ends included. */
  lemma SelectsIff(q: Query, r: Reading)
    ensures Selects(q, r) <==>
            && (q.first.Some? ==> q.first.value <= MoscowDay(r))
            && (q.last.Some? ==> MoscowDay(r) <= q.last.value)
            && (q.meters.Some? ==> r.meter in q.meters.value)
  {
  }

  /** A bucket is one day of Moscow, or one hour of the clock. */
  lemma KeyIff(r: Reading, k: int)
    ensures KeyOf(Day, r) == k <==> MoscowDay(r) == k
    ensures KeyOf(Hour, r) == k <==> k * 3_600 <= r.hour + 3 * 3_600 < (k + 1) * 3_600
  {
  }

  // ---------- sums over readings ----------

  function SumIf(rows: seq<Reading>, p: Reading -> bool): real {
    if |rows| == 0 then 0.0
    else SumIf(rows[..|rows| - 1], p) + if p(rows[|rows| - 1]) then rows[|rows| - 1].kwh else 0.0
  }

  function Selected(q: Query): Reading -> bool {
    r => Selects(q, r)
  }

  function Key(group: Group): Reading -> int {
    r => KeyOf(group, r)
  }

  function Meter(): Reading -> int {
    (r: Reading) => r.meter
  }

  /** The readings of `p` that `f` puts in class `k`. */
  function InClass(p: Reading -> bool, f: Reading -> int, k: int): Reading -> bool {
    r => p(r) && f(r) == k
  }

  function InBucket(q: Query, group: Group, k: int): Reading -> bool {
    InClass(Selected(q), Key(group), k)
  }

  /** What the selected readings add up to. */
  function Total(rows: seq<Reading>, q: Query): real {
    SumIf(rows, Selected(q))
  }

  function BucketSum(rows: seq<Reading>, q: Query, group: Group, k: int): real {
    SumIf(rows, InBucket(q, group, k))
  }

  function PartSum(rows: seq<Reading>, q: Query, group: Group, k: int, m: int): real {
    SumIf(rows, InClass(InBucket(q, group, k), Meter(), m))
  }

  /** The readings that satisfy `p`, added up class by class. */
  function SumOver(keys: seq<int>, rows: seq<Reading>, p: Reading -> bool, f: Reading -> int): real {
    if |keys| == 0 then 0.0
    else SumOver(keys[..|keys| - 1], rows, p, f) + SumIf(rows, InClass(p, f, keys[|keys| - 1]))
  }

  lemma {:induction false} SumIfSame(rows: seq<Reading>, p: Reading -> bool, p': Reading -> bool)
    requires forall i :: 0 <= i < |rows| ==> p(rows[i]) == p'(rows[i])
    ensures SumIf(rows, p) == SumIf(rows, p')
  {
    if |rows| > 0 {
      SumIfSame(rows[..|rows| - 1], p, p');
    }
  }

  /** One more reading adds its energy to its own class, once. */
  lemma {:induction false} SumOverStep(keys: seq<int>, rows: seq<Reading>, p: Reading -> bool, f: Reading -> int)
    requires Distinct(keys) && |rows| > 0
    ensures var last := rows[|rows| - 1];
            SumOver(keys, rows, p, f) ==
            SumOver(keys, rows[..|rows| - 1], p, f) + if p(last) && f(last) in keys then last.kwh else 0.0
  {
    if |keys| > 0 {
      var init, k := keys[..|keys| - 1], keys[|keys| - 1];
      assert keys == init + [k];
      SumOverStep(init, rows, p, f);
    }
  }

  lemma {:induction false} SumOverNothing(keys: seq<int>, p: Reading -> bool, f: Reading -> int)
    ensures SumOver(keys, [], p, f) == 0.0
  {
    if |keys| > 0 {
      SumOverNothing(keys[..|keys| - 1], p, f);
    }
  }

  /** However the readings are classified, the classes add up to the whole. */
  lemma {:induction false} ClassesAddUp(keys: seq<int>, rows: seq<Reading>, p: Reading -> bool, f: Reading -> int)
    requires Distinct(keys)
    requires forall i :: 0 <= i < |rows| && p(rows[i]) ==> f(rows[i]) in keys
    ensures SumOver(keys, rows, p, f) == SumIf(rows, p)
  {
    if |rows| == 0 {
      SumOverNothing(keys, p, f);
    } else {
      SumOverStep(keys, rows, p, f);
      ClassesAddUp(keys, rows[..|rows| - 1], p, f);
    }
  }

  // ---------- conservation ----------

  /** The buckets of a report add up to the selected readings. */
  lemma {:induction false} BucketsAddUp(keys: seq<int>, rows: seq<Reading>, q: Query, group: Group)
    requires Distinct(keys)
    requires forall i :: 0 <= i < |rows| && Selects(q, rows[i]) ==> KeyOf(group, rows[i]) in keys
    ensures SumOver(keys, rows, Selected(q), Key(group)) == Total(rows, q)
  {
    ClassesAddUp(keys, rows, Selected(q), Key(group));
  }

  /** A bucket is the sum of its meters' parts. */
  lemma {:induction false} PartsAddUp(meters: seq<int>, rows: seq<Reading>, q: Query, group: Group, k: int)
    requires Distinct(meters)
    requires forall i :: 0 <= i < |rows| && Selects(q, rows[i]) && KeyOf(group, rows[i]) == k ==>
             rows[i].meter in meters
    ensures SumOver(meters, rows, InBucket(q, group, k), Meter())
            == BucketSum(rows, q, group, k)
  {
    ClassesAddUp(meters, rows, InBucket(q, group, k), Meter());
  }

  /** The 24 hours of a day. */
  function HoursOf(day: int): (hours: seq<int>)
    ensures Distinct(hours) && forall h :: h in hours <==> h / 24 == day
  {
    var hours := seq(24, i => day * 24 + i);
    assert forall h :: h / 24 == day ==> hours[h - day * 24] == h;
    hours
  }

  function HourSums(hours: seq<int>, rows: seq<Reading>, q: Query): real {
    if |hours| == 0 then 0.0
    else HourSums(hours[..|hours| - 1], rows, q) + BucketSum(rows, q, Hour, hours[|hours| - 1])
  }

  lemma DayOfHour(r: Reading)
    ensures KeyOf(Day, r) == KeyOf(Hour, r) / 24
  {
  }

  lemma {:induction false} HourSumsAreClasses(hours: seq<int>, rows: seq<Reading>, q: Query, day: int)
    requires forall h :: h in hours ==> h / 24 == day
    ensures HourSums(hours, rows, q) ==
            SumOver(hours, rows, InBucket(q, Day, day), Key(Hour))
  {
    if |hours| > 0 {
      var init, h := hours[..|hours| - 1], hours[|hours| - 1];
      assert h in hours && forall x :: x in init ==> x in hours;
      HourSumsAreClasses(init, rows, q, day);
      forall r ensures KeyOf(Hour, r) == h ==> KeyOf(Day, r) == day {
        DayOfHour(r);
      }
      SumIfSame(rows, InBucket(q, Hour, h), InClass(InBucket(q, Day, day), Key(Hour), h));
    }
  }

  /** A day's bucket is its 24 hours' buckets regrouped. */
  lemma {:induction false} DayIsItsHours(rows: seq<Reading>, q: Query, day: int)
    ensures BucketSum(rows, q, Day, day) == HourSums(HoursOf(day), rows, q)
  {
    forall r ensures KeyOf(Day, r) == KeyOf(Hour, r) / 24 {
      DayOfHour(r);
    }
    HourSumsAreClasses(HoursOf(day), rows, q, day);
    ClassesAddUp(HoursOf(day), rows, InBucket(q, Day, day), Key(Hour));
  }

  /** Adjacent periods add up to the period they make together. */
  lemma {:induction false} PeriodsAddUp(rows: seq<Reading>, first: Option<int>, middle: int, last: Option<int>,
                                        meters: Option<set<int>>)
    requires first.Some? ==> first.value <= middle + 1
    requires last.Some? ==> middle <= last.value
    ensures Total(rows, Query(first, last, meters)) ==
            Total(rows, Query(first, Some(middle), meters)) + Total(rows, Query(Some(middle + 1), last, meters))
  {
    if |rows| > 0 {
      PeriodsAddUp(rows[..|rows| - 1], first, middle, last, meters);
    }
  }

  // ---------- the report ----------

  ghost predicate Any(rows: seq<Reading>, p: Reading -> bool) {
    exists i :: 0 <= i < |rows| && p(rows[i])
  }

  ghost predicate SeenKey(rows: seq<Reading>, q: Query, group: Group, k: int) {
    Any(rows, InBucket(q, group, k))
  }

  ghost predicate SeenPart(rows: seq<Reading>, q: Query, group: Group, k: int, m: int) {
    Any(rows, InClass(InBucket(q, group, k), Meter(), m))
  }

  ghost predicate BucketHolds(b: Bucket, rows: seq<Reading>, q: Query, group: Group, k: int) {
    && b.kwh == BucketSum(rows, q, group, k)
    && (forall m :: m in b.parts <==> SeenPart(rows, q, group, k, m))
    && (forall m :: m in b.parts ==> b.parts[m] == PartSum(rows, q, group, k, m))
  }

  /** A bucket for every key seen and for no other, with a part for every meter seen and for no other. */
  ghost predicate BucketsHold(buckets: map<int, Bucket>, rows: seq<Reading>, q: Query, group: Group) {
    && (forall k :: k in buckets <==> SeenKey(rows, q, group, k))
    && (forall k :: k in buckets ==> BucketHolds(buckets[k], rows, q, group, k))
  }

  function Add(b: Bucket, e: Reading): Bucket {
    Bucket(b.kwh + e.kwh, b.parts[e.meter := (if e.meter in b.parts then b.parts[e.meter] else 0.0) + e.kwh])
  }

  lemma SumIfStep(rows: seq<Reading>, i: nat, p: Reading -> bool)
    requires i < |rows|
    ensures SumIf(rows[..i + 1], p) == SumIf(rows[..i], p) + if p(rows[i]) then rows[i].kwh else 0.0
  {
    assert rows[..i + 1][..i] == rows[..i];
  }

  lemma {:induction false} SumIfNone(rows: seq<Reading>, p: Reading -> bool)
    requires forall i :: 0 <= i < |rows| ==> !p(rows[i])
    ensures SumIf(rows, p) == 0.0
  {
    if |rows| > 0 {
      SumIfNone(rows[..|rows| - 1], p);
    }
  }

  lemma AnyStep(rows: seq<Reading>, i: nat, p: Reading -> bool)
    requires i < |rows|
    ensures Any(rows[..i + 1], p) <==> Any(rows[..i], p) || p(rows[i])
  {
    var now := rows[..i + 1];
    assert now[i] == rows[i] && forall j :: 0 <= j < i ==> now[j] == rows[..i][j];
    if Any(rows[..i], p) {
      var j :| 0 <= j < i && p(rows[..i][j]);
      assert p(now[j]);
    }
  }

  lemma PartStep(b: Bucket, rows: seq<Reading>, i: nat, q: Query, group: Group, k: int, m: int)
    requires i < |rows| && BucketHolds(b, rows[..i], q, group, k)
    ensures var mine := InBucket(q, group, k)(rows[i]) && rows[i].meter == m;
            && (SeenPart(rows[..i + 1], q, group, k, m) <==> m in b.parts || mine)
            && PartSum(rows[..i + 1], q, group, k, m) ==
               (if m in b.parts then b.parts[m] else 0.0) + if mine then rows[i].kwh else 0.0
  {
    var part := InClass(InBucket(q, group, k), Meter(), m);
    SumIfStep(rows, i, part);
    AnyStep(rows, i, part);
    if m !in b.parts {
      assert !SeenPart(rows[..i], q, group, k, m);
      SumIfNone(rows[..i], part);
    }
  }

  /** A bucket that the reading does not belong to. */
  lemma BucketKept(b: Bucket, rows: seq<Reading>, i: nat, q: Query, group: Group, k: int)
    requires i < |rows| && BucketHolds(b, rows[..i], q, group, k) && !InBucket(q, group, k)(rows[i])
    ensures BucketHolds(b, rows[..i + 1], q, group, k)
  {
    SumIfStep(rows, i, InBucket(q, group, k));
    forall m ensures SeenPart(rows[..i + 1], q, group, k, m) <==> m in b.parts {
      PartStep(b, rows, i, q, group, k, m);
    }
    forall m | m in b.parts ensures PartSum(rows[..i + 1], q, group, k, m) == b.parts[m] {
      PartStep(b, rows, i, q, group, k, m);
    }
  }

  /** The bucket that the reading does belong to. */
  lemma BucketGrows(b: Bucket, rows: seq<Reading>, i: nat, q: Query, group: Group, k: int)
    requires i < |rows| && BucketHolds(b, rows[..i], q, group, k) && InBucket(q, group, k)(rows[i])
    ensures BucketHolds(Add(b, rows[i]), rows[..i + 1], q, group, k)
  {
    var grown := Add(b, rows[i]);
    SumIfStep(rows, i, InBucket(q, group, k));
    forall m ensures SeenPart(rows[..i + 1], q, group, k, m) <==> m in grown.parts {
      PartStep(b, rows, i, q, group, k, m);
    }
    forall m | m in grown.parts ensures PartSum(rows[..i + 1], q, group, k, m) == grown.parts[m] {
      PartStep(b, rows, i, q, group, k, m);
    }
  }

  /** The bucket that the first reading of its key finds. */
  lemma EmptyBucketHolds(rows: seq<Reading>, q: Query, group: Group, k: int)
    requires !SeenKey(rows, q, group, k)
    ensures BucketHolds(Bucket(0.0, map[]), rows, q, group, k)
  {
    SumIfNone(rows, InBucket(q, group, k));
  }

  /** A reading put in the bucket of its hour or day. */
  function Put(buckets: map<int, Bucket>, group: Group, e: Reading): map<int, Bucket> {
    var key := KeyOf(group, e);
    buckets[key := Add(if key in buckets then buckets[key] else Bucket(0.0, map[]), e)]
  }

  /** One bucket of the table, after one more reading that belongs to it or does not. */
  lemma BucketStep(buckets: map<int, Bucket>, rows: seq<Reading>, i: nat, q: Query, group: Group, k: int)
    requires i < |rows| && BucketsHold(buckets, rows[..i], q, group)
    ensures var now := if Selects(q, rows[i]) then Put(buckets, group, rows[i]) else buckets;
            && (k in now <==> SeenKey(rows[..i + 1], q, group, k))
            && (k in now ==> BucketHolds(now[k], rows[..i + 1], q, group, k))
  {
    AnyStep(rows, i, InBucket(q, group, k));
    if InBucket(q, group, k)(rows[i]) {
      var b := if k in buckets then buckets[k] else Bucket(0.0, map[]);
      if k !in buckets {
        assert !SeenKey(rows[..i], q, group, k);
        EmptyBucketHolds(rows[..i], q, group, k);
      }
      BucketGrows(b, rows, i, q, group, k);
      assert Put(buckets, group, rows[i])[k] == Add(b, rows[i]);
    } else if k in buckets {
      BucketKept(buckets[k], rows, i, q, group, k);
    }
  }

  lemma BucketsStep(buckets: map<int, Bucket>, rows: seq<Reading>, i: nat, q: Query, group: Group)
    requires i < |rows| && BucketsHold(buckets, rows[..i], q, group)
    ensures BucketsHold(if Selects(q, rows[i]) then Put(buckets, group, rows[i]) else buckets, rows[..i + 1], q, group)
  {
    var now := if Selects(q, rows[i]) then Put(buckets, group, rows[i]) else buckets;
    forall k
      ensures k in now <==> SeenKey(rows[..i + 1], q, group, k)
      ensures k in now ==> BucketHolds(now[k], rows[..i + 1], q, group, k)
    {
      BucketStep(buckets, rows, i, q, group, k);
    }
  }

  function KeysOf(series: seq<Point>): (keys: seq<int>)
    ensures |keys| == |series| && forall i :: 0 <= i < |keys| ==> keys[i] == series[i].t
  {
    seq(|series|, i requires 0 <= i < |series| => series[i].t)
  }

  function SeriesTotal(series: seq<Point>): real {
    if |series| == 0 then 0.0 else SeriesTotal(series[..|series| - 1]) + series[|series| - 1].bucket.kwh
  }

  ghost predicate SeriesHolds(series: seq<Point>, rows: seq<Reading>, q: Query, group: Group) {
    && Ascending(KeysOf(series))
    && (forall k :: SeenKey(rows, q, group, k) <==> k in KeysOf(series))
    && (forall i :: 0 <= i < |series| ==> BucketHolds(series[i].bucket, rows, q, group, series[i].t))
  }

  lemma {:induction false} SeriesTotalIsSum(series: seq<Point>, rows: seq<Reading>, q: Query, group: Group)
    requires forall i :: 0 <= i < |series| ==> series[i].bucket.kwh == BucketSum(rows, q, group, series[i].t)
    ensures SeriesTotal(series) == SumOver(KeysOf(series), rows, Selected(q), Key(group))
  {
    if |series| > 0 {
      SeriesTotalIsSum(series[..|series| - 1], rows, q, group);
      assert KeysOf(series)[..|series| - 1] == KeysOf(series[..|series| - 1]);
    }
  }

  /** The accumulation over the rows of the query, bucket by bucket. */
  method Accumulate(rows: seq<Reading>, q: Query, group: Group) returns (buckets: map<int, Bucket>)
    ensures BucketsHold(buckets, rows, q, group)
  {
    buckets := map[];
    var i := 0;
    while i < |rows|
      invariant 0 <= i <= |rows| && BucketsHold(buckets, rows[..i], q, group)
    {
      var e := rows[i];
      BucketsStep(buckets, rows, i, q, group);
      if Selects(q, e) {
        buckets := Put(buckets, group, e);
      }
      i := i + 1;
    }
    assert rows[..i] == rows;
  }

  /** The buckets in order of time. */
  method InOrder(buckets: map<int, Bucket>) returns (series: seq<Point>)
    ensures Ascending(KeysOf(series))
    ensures forall k :: k in buckets <==> k in KeysOf(series)
    ensures forall i :: 0 <= i < |series| ==> series[i].t in buckets && series[i].bucket == buckets[series[i].t]
  {
    var keys := Sorted(buckets.Keys);
    forall i | 0 <= i < |keys| ensures keys[i] in buckets {
      assert keys[i] in keys;
    }
    series := seq(|keys|, i requires 0 <= i < |keys| => Point(keys[i], buckets[keys[i]]));
    assert KeysOf(series) == keys;
  }

  /** The first of the points with the most energy. */
  ghost predicate IsPeak(series: seq<Point>, p: nat) {
    && p < |series|
    && (forall i :: 0 <= i < |series| ==> series[i].bucket.kwh <= series[p].bucket.kwh)
    && (forall i :: 0 <= i < p ==> series[i].bucket.kwh < series[p].bucket.kwh)
  }

  /** The total over the points, and where the first of the highest is. */
  method TotalAndPeak(series: seq<Point>) returns (total: real, peak: nat)
    ensures total == SeriesTotal(series)
    ensures series != [] ==> IsPeak(series, peak)
  {
    total, peak := 0.0, 0;
    var i := 0;
    while i < |series|
      invariant 0 <= i <= |series|
      invariant total == SeriesTotal(series[..i])
      invariant i > 0 ==> peak < i
      invariant i > 0 ==> forall j :: 0 <= j < i ==> series[j].bucket.kwh <= series[peak].bucket.kwh
      invariant i > 0 ==> forall j :: 0 <= j < peak ==> series[j].bucket.kwh < series[peak].bucket.kwh
    {
      assert series[..i + 1][..i] == series[..i];
      total := total + series[i].bucket.kwh;
      if i == 0 || series[i].bucket.kwh > series[peak].bucket.kwh {
        peak := i;
      }
      i := i + 1;
    }
    assert series[..i] == series;
  }

  /** A series that holds loses and invents no energy. */
  lemma {:induction false} SeriesConserves(series: seq<Point>, rows: seq<Reading>, q: Query, group: Group)
    requires SeriesHolds(series, rows, q, group)
    ensures SeriesTotal(series) == Total(rows, q)
  {
    SeriesTotalIsSum(series, rows, q, group);
    forall j | 0 <= j < |rows| && Selects(q, rows[j]) ensures KeyOf(group, rows[j]) in KeysOf(series) {
      assert InBucket(q, group, KeyOf(group, rows[j]))(rows[j]);
      assert SeenKey(rows, q, group, KeyOf(group, rows[j]));
    }
    BucketsAddUp(KeysOf(series), rows, q, group);
  }

  function HoursIn(points: nat, group: Group): nat {
    points * if group.Day? then 24 else 1
  }

  function Average(total: real, hours: nat): (a: Option<real>)
    ensures a.None? <==> hours == 0
    ensures a.Some? ==> a.value * hours as real == total
  {
    if hours > 0 then Some(total / hours as real) else None
  }

  /** The points of the report: the buckets of the selected readings in order of time. */
  method Series(rows: seq<Reading>, q: Query, group: Group) returns (series: seq<Point>)
    ensures SeriesHolds(series, rows, q, group)
    ensures SeriesTotal(series) == Total(rows, q)
  {
    var buckets := Accumulate(rows, q, group);
    series := InOrder(buckets);
    assert SeriesHolds(series, rows, q, group);
    SeriesConserves(series, rows, q, group);
  }

  /** What the report of `/hourly` promises of the readings it is made of. */
  ghost predicate ReportHolds(r: Report, rows: seq<Reading>, q: Query, group: Group) {
    && SeriesHolds(r.series, rows, q, group)
    && r.total == Total(rows, q)
    && (r.avg.None? <==> r.series == [])
    && (r.avg.Some? ==> r.avg.value * (|r.series| * if group.Day? then 24 else 1) as real == r.total)
    && (r.peak.None? <==> r.series == [])
    && (r.peak.Some? ==> exists i: nat :: IsPeak(r.series, i) && r.series[i] == r.peak.value)
  }

  function MakeReport(series: seq<Point>, total: real, peak: nat, group: Group): Report
    requires series != [] ==> peak < |series|
  {
    Report(series, total, Average(total, HoursIn(|series|, group)), if series == [] then None else Some(series[peak]))
  }

  lemma MadeReportHolds(series: seq<Point>, total: real, peak: nat, rows: seq<Reading>, q: Query, group: Group)
    requires SeriesHolds(series, rows, q, group) && total == Total(rows, q)
    requires series != [] ==> IsPeak(series, peak)
    ensures ReportHolds(MakeReport(series, total, peak, group), rows, q, group)
  {
  }

  /**
   The report of `/hourly`: one point for every hour or day with a selected reading, in order, whose
   energies and total are those of the readings.  `None` when the period ends before it begins.
   */
  method HourlyReport(rows: seq<Reading>, q: Query, group: Group) returns (r: Option<Report>)
    ensures r.None? <==> q.first.Some? && q.last.Some? && q.last.value < q.first.value
    ensures r.Some? ==> ReportHolds(r.value, rows, q, group)
  {
    if q.first.Some? && q.last.Some? && q.last.value < q.first.value {
      return None;
    }
    var series := Series(rows, q, group);
    var total, peak := TotalAndPeak(series);
    MadeReportHolds(series, total, peak, rows, q, group);
    return Some(MakeReport(series, total, peak, group));
  }
}
