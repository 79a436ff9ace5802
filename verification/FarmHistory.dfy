/** The farm over time, averaged over slots of equal width. */
module FarmHistory {
  import opened Wrappers
  import opened Sequences
  import opened Samples

  const SECOND: int := 1_000_000
  const HOUR: int := 3_600 * SECOND
  const DAY: int := 86_400 * SECOND
  const MSK: int := 10_800 * SECOND

  /** The last hours before `now`, or whole days of Moscow time from `first` to `last`. */
  datatype Period = LastHours(hours: int, now: int) | Days(first: int, last: int)

  datatype Window = Window(since: int, until: Option<int>, hours: int)

  /** `None` for a period of calendar days that is refused. */
  function Resolve(p: Period): Option<Window> {
    match p
    case LastHours(hours, now) =>
      var clamped := if hours < 1 then 1 else if hours > 9_600 then 9_600 else hours;
      Some(Window(now - clamped * HOUR, None, clamped))
    case Days(first, last) =>
      var d0, d1 := first * DAY - MSK, (last + 1) * DAY - MSK;
      if d1 <= d0 || d1 - d0 > 400 * DAY then None else Some(Window(d0, Some(d1), (d1 - d0) / HOUR))
  }

  /** The calendar day of Moscow, three hours ahead, on which the sample falls, counted from the epoch. */
  function MoscowDay(at: int): int {
    (at + 3 * HOUR) / (24 * HOUR)
  }

  predicate Selects(w: Window, s: Sample) {
    s.at >= w.since && (w.until.Some? ==> s.at < w.until.value)
  }

  function Width(w: Window): (width: int)
    ensures width >= 60 * SECOND
  {
    var step := w.hours * 3_600 / 300;
    (if step > 60 then step else 60) * SECOND
  }

  function Selected(w: Window): Sample -> bool {
    s => Selects(w, s)
  }

  function InSlot(width: int, k: int): Sample -> bool
    requires width > 0
  {
    (s: Sample) => s.at / width == k
  }

  function Slot(rows: seq<Sample>, width: int, k: int): seq<Sample>
    requires width > 0
  {
    Filter(rows, InSlot(width, k))
  }

  /** The running count and sums of a slot. */
  datatype Sums = Sums(n: nat, ths: real, online: real, total: real, kw: real)

  function SumsOf(samples: seq<Sample>): Sums {
    Sums(|samples|, Sum(samples, Ths), Sum(samples, Online), Sum(samples, Total), Sum(samples, Kw))
  }

  function Added(b: Sums, s: Sample): Sums {
    Sums(b.n + 1, b.ths + Value(s, Ths), b.online + Value(s, Online), b.total + Value(s, Total), b.kw + Value(s, Kw))
  }

  datatype Point = Point(at: int, ths: real, online: real, total: real, kw: real)

  /** A slot's point, in the middle of it. */
  function PointOf(width: int, k: int, samples: seq<Sample>): Point
    requires samples != []
  {
    Point(k * width + width / 2, Mean(samples, Ths), Mean(samples, Online), Mean(samples, Total), Mean(samples, Kw))
  }

  ghost predicate SlotsHold(slots: map<int, Sums>, rows: seq<Sample>, width: int)
    requires width > 0
  {
    && (forall k :: k in slots <==> Slot(rows, width, k) != [])
    && (forall k :: k in slots ==> slots[k] == SumsOf(Slot(rows, width, k)))
  }

  /** The slots that hold a sample, in order, and the average of each. */
  ghost predicate Charts(out: seq<Point>, keys: seq<int>, rows: seq<Sample>, width: int)
    requires width > 0
  {
    && |out| == |keys| && Ascending(keys)
    && (forall k :: k in keys <==> Slot(rows, width, k) != [])
    && (forall i :: 0 <= i < |keys| ==>
          keys[i] in keys && out[i] == PointOf(width, keys[i], Slot(rows, width, keys[i])))
  }

  lemma SumsGrow(samples: seq<Sample>, s: Sample)
    ensures SumsOf(samples + [s]) == Added(SumsOf(samples), s)
  {
    assert (samples + [s])[..|samples|] == samples;
  }

  function PutIn(slots: map<int, Sums>, width: int, s: Sample): map<int, Sums>
    requires width > 0
  {
    var k := s.at / width;
    slots[k := Added(if k in slots then slots[k] else Sums(0, 0.0, 0.0, 0.0, 0.0), s)]
  }

  lemma SlotsStep(slots: map<int, Sums>, rows: seq<Sample>, i: nat, width: int)
    requires i < |rows| && width > 0 && SlotsHold(slots, rows[..i], width)
    ensures SlotsHold(PutIn(slots, width, rows[i]), rows[..i + 1], width)
  {
    var now, mine := PutIn(slots, width, rows[i]), rows[i].at / width;
    forall k ensures k in now <==> Slot(rows[..i + 1], width, k) != [] {
      FilterStep(rows, i, InSlot(width, k));
    }
    forall k | k in now ensures now[k] == SumsOf(Slot(rows[..i + 1], width, k)) {
      FilterStep(rows, i, InSlot(width, k));
      if k == mine {
        SumsGrow(Slot(rows[..i], width, k), rows[i]);
      }
    }
  }

  method FillSlots(rows: seq<Sample>, width: int) returns (slots: map<int, Sums>)
    requires width > 0
    ensures SlotsHold(slots, rows, width)
  {
    slots := map[];
    var i := 0;
    while i < |rows|
      invariant 0 <= i <= |rows| && SlotsHold(slots, rows[..i], width)
    {
      SlotsStep(slots, rows, i, width);
      slots := PutIn(slots, width, rows[i]);
      i := i + 1;
    }
    assert rows[..i] == rows;
  }

  /** The chart of the farm; `None` when the period is refused. */
  method History(samples: seq<Sample>, p: Period) returns (r: Option<seq<Point>>, ghost keys: seq<int>)
    ensures r.None? <==> Resolve(p).None?
    ensures r.Some? ==> var w := Resolve(p).value; Charts(r.value, keys, Filter(samples, Selected(w)), Width(w))
  {
    keys := [];
    var resolved := Resolve(p);
    if resolved.None? {
      return None, keys;
    }
    var w := resolved.value;
    var rows := Filter(samples, Selected(w));
    var width := Width(w);
    var slots := FillSlots(rows, width);
    var order := Sorted(slots.Keys);
    var out := [];
    for i := 0 to |order|
      invariant |out| == i
      invariant forall j :: 0 <= j < i ==>
                order[j] in slots && out[j] == PointOf(width, order[j], Slot(rows, width, order[j]))
    {
      assert order[i] in order;
      var k := order[i];
      var b := slots[k];
      var n := b.n as real;
      out := out + [Point(k * width + width / 2, b.ths / n, b.online / n, b.total / n, b.kw / n)];
    }
    return Some(out), order;
  }

  // ---------- what a period takes in ----------

  /** The days are refused exactly when they are none or more than four hundred. */
  lemma RefusedIff(p: Period)
    ensures Resolve(p).None? <==> p.Days? && !(1 <= p.last - p.first + 1 <= 400)
  {
  }

  /** Whole days of Moscow time take in the samples of those days. */
  lemma DaysSelect(first: int, last: int, s: Sample)
    requires Resolve(Days(first, last)).Some?
    ensures Selects(Resolve(Days(first, last)).value, s) <==> first <= MoscowDay(s.at) <= last
  {
  }

  /**
   Hours counted back from now take in the samples since; less than one counts as one, and more than 400 days
   as 400.
   */
  lemma HoursSelect(hours: int, now: int, s: Sample)
    ensures Resolve(LastHours(hours, now)).Some?
    ensures 1 <= hours <= 400 * 24 ==>
              (Selects(Resolve(LastHours(hours, now)).value, s) <==> s.at >= now - hours * HOUR)
    ensures hours < 1 ==> (Selects(Resolve(LastHours(hours, now)).value, s) <==> s.at >= now - HOUR)
    ensures hours > 400 * 24 ==> (Selects(Resolve(LastHours(hours, now)).value, s) <==> s.at >= now - 400 * 24 * HOUR)
  {
  }

  /** Five hours and more are cut into 300 slots; a shorter period has slots of a minute. */
  lemma WidthOfPeriod(p: Period)
    requires Resolve(p).Some?
    ensures var w := Resolve(p).value;
            if w.hours >= 5 then 300 * Width(w) == w.hours * HOUR else Width(w) == 60 * SECOND
  {
  }

  lemma NearTheMiddle(at: int, width: int)
    requires width > 0
    ensures var middle := at / width * width + width / 2; -(width - width / 2) < middle - at <= width / 2
  {
    assert at == at / width * width + at % width;
  }

  /** A point lies in the middle of its slot: no sample of it is more than half a slot away. */
  lemma PointIsNear(rows: seq<Sample>, width: int, keys: seq<int>, out: seq<Point>, i: nat, s: Sample)
    requires width > 0 && Charts(out, keys, rows, width) && i < |out| && s in Slot(rows, width, keys[i])
    ensures -(width - width / 2) < out[i].at - s.at <= width / 2
  {
    FilterMembers(rows, InSlot(width, keys[i]));
    assert keys[i] in keys && s in Slot(rows, width, keys[i]);
    assert InSlot(width, keys[i])(s);
    NearTheMiddle(s.at, width);
  }

  /** A slot with one sample shows that sample's own figures, nought for a missing one. */
  lemma PointOfOne(rows: seq<Sample>, width: int, keys: seq<int>, out: seq<Point>, i: nat, s: Sample)
    requires width > 0 && Charts(out, keys, rows, width) && i < |out| && Slot(rows, width, keys[i]) == [s]
    ensures out[i].ths == OrNought(s.ths) && out[i].online == OrNought(s.online)
    ensures out[i].total == OrNought(s.total) && out[i].kw == OrNought(s.kw)
  {
    assert keys[i] in keys;
    MeanOfOne(s);
  }

  // ---------- what the chart keeps ----------

  lemma {:induction false} AscendingLength(keys: seq<int>, lo: int, hi: int)
    requires Ascending(keys) && lo <= hi + 1 && forall k :: k in keys ==> lo <= k <= hi
    ensures |keys| <= hi - lo + 1
  {
    if |keys| > 0 {
      var init, last := keys[..|keys| - 1], keys[|keys| - 1];
      assert last in keys;
      forall k | k in init ensures lo <= k <= last - 1 {
        assert k in keys;
      }
      AscendingLength(init, lo, last - 1);
    }
  }

  lemma NotNegative(d: int, width: int)
    requires width > 0 && d >= 0
    ensures d * width >= 0
  {
  }

  lemma Product(a: int, b: int, width: int)
    requires width > 0 && a < b
    ensures a * width + width <= b * width
  {
    NotNegative(b - a - 1, width);
    assert b * width == a * width + width + (b - a - 1) * width;
  }

  lemma Floor(x: int, y: int, width: int)
    requires width > 0 && x <= y
    ensures x / width <= y / width
  {
    var p, q := x / width, y / width;
    assert p * width <= x && y < q * width + width;
    if q < p {
      Product(q, p, width);
    }
  }

  lemma QuotientIs(x: int, q: int, width: int)
    requires width > 0 && q * width <= x < q * width + width
    ensures x / width == q
  {
    var p := x / width;
    assert p * width <= x < p * width + width;
    if p < q {
      Product(p, q, width);
    }
    if q < p {
      Product(q, p, width);
    }
  }

  lemma FloorShift(x: int, n: int, width: int)
    requires width > 0
    ensures (x + n * width) / width == x / width + n
  {
    var q := x / width;
    assert q * width <= x < q * width + width;
    assert (q + n) * width == q * width + n * width;
    QuotientIs(x + n * width, q + n, width);
  }

  /** A window of at most 300 widths touches at most 301 slots. */
  lemma SlotsOfWindow(width: int, since: int, last: int)
    requires width > 0 && since <= last <= since + 300 * width
    ensures since / width <= last / width <= since / width + 300
  {
    Floor(since, last, width);
    Floor(last, since + 300 * width, width);
    assert (since + 300 * width) / width == since / width + 300 by {
      FloorShift(since, 300, width);
    }
  }

  lemma HoursOfDays(first: int, last: int)
    ensures var d0, d1 := first * DAY - MSK, (last + 1) * DAY - MSK;
            (d1 - d0) / HOUR == 24 * (last + 1 - first) && d1 - d0 == 24 * (last + 1 - first) * HOUR
  {
  }

  /** The window is as long as its hours, and never longer than 300 widths. */
  lemma WindowIsShort(p: Period)
    requires Resolve(p).Some?
    ensures var w := Resolve(p).value;
            w.hours * HOUR <= 300 * Width(w) && (w.until.Some? ==> w.until.value - w.since == w.hours * HOUR)
            && (p.LastHours? ==> p.now - w.since == w.hours * HOUR)
  {
    match p
    case LastHours(_, _) =>
    case Days(first, last) => HoursOfDays(first, last);
  }

  lemma SlotHasSample(samples: seq<Sample>, w: Window, width: int, k: int) returns (s: Sample)
    requires width > 0 && Slot(Filter(samples, Selected(w)), width, k) != []
    ensures s in samples && Selects(w, s) && s.at / width == k
  {
    var rows := Filter(samples, Selected(w));
    s := Slot(rows, width, k)[0];
    FilterMembers(rows, InSlot(width, k));
    FilterMembers(samples, Selected(w));
    assert s in Slot(rows, width, k) && s in rows;
  }

  lemma {:induction false} SlotInRange(samples: seq<Sample>, w: Window, width: int, latest: int, k: int)
    requires width > 0 && Slot(Filter(samples, Selected(w)), width, k) != []
    requires forall s :: s in samples && Selects(w, s) ==> s.at <= latest
    ensures w.since <= latest && w.since / width <= k <= latest / width
  {
    var s := SlotHasSample(samples, w, width, k);
    Floor(w.since, s.at, width);
    Floor(s.at, latest, width);
  }

  /** Never more points than there are slots from the start of the period to the latest sample, whatever the samples. */
  lemma {:induction false} PointsUpToLatest(samples: seq<Sample>, w: Window, latest: int, keys: seq<int>,
                                            out: seq<Point>)
    requires forall s :: s in samples && Selects(w, s) ==> s.at <= latest
    requires Charts(out, keys, Filter(samples, Selected(w)), Width(w))
    ensures |out| <= if latest >= w.since then latest / Width(w) - w.since / Width(w) + 1 else 0
  {
    var width := Width(w);
    forall k | k in keys ensures w.since <= latest && w.since / width <= k <= latest / width {
      SlotInRange(samples, w, width, latest, k);
    }
    if |keys| > 0 {
      assert keys[0] in keys;
      AscendingLength(keys, w.since / width, latest / width);
    } else if latest >= w.since {
      Floor(w.since, latest, width);
    }
  }

  lemma {:induction false} KeysGrow(keys: seq<int>, lo: int, i: nat)
    requires Ascending(keys) && i < |keys| && keys[0] >= lo
    ensures keys[i] >= lo + i
  {
    if i > 0 {
      KeysGrow(keys, lo, i - 1);
    }
  }

  lemma BeginsLater(k: int, last: int, width: int)
    requires width > 0 && k > last / width
    ensures k * width > last
  {
    var q := last / width;
    assert last < q * width + width == (q + 1) * width;
    if k > q + 1 {
      Product(q + 1, k, width);
    }
  }

  lemma {:induction false} FirstKey(samples: seq<Sample>, w: Window, keys: seq<int>, out: seq<Point>)
    requires Charts(out, keys, Filter(samples, Selected(w)), Width(w)) && |keys| > 0
    ensures keys[0] >= w.since / Width(w)
  {
    assert keys[0] in keys;
    var s := SlotHasSample(samples, w, Width(w), keys[0]);
    Floor(w.since, s.at, Width(w));
  }

  /** Past the 301st point, slots begin after the end of the window, wherever the samples are. */
  lemma {:induction false} LaterPoints(samples: seq<Sample>, p: Period, keys: seq<int>, out: seq<Point>, i: nat)
    requires Resolve(p).Some? && 301 <= i < |out|
    requires var w := Resolve(p).value; Charts(out, keys, Filter(samples, Selected(w)), Width(w))
    ensures var w := Resolve(p).value; keys[i] * Width(w) > w.since + w.hours * HOUR
  {
    var w := Resolve(p).value;
    var last := w.since + w.hours * HOUR;
    WindowIsShort(p);
    FirstKey(samples, w, keys, out);
    KeysGrow(keys, w.since / Width(w), i);
    if last >= w.since {
      SlotsOfWindow(Width(w), w.since, last);
    } else {
      Floor(last, w.since, Width(w));
    }
    BeginsLater(keys[i], last, Width(w));
  }

  lemma SlotBegins(s: Sample, width: int)
    requires width > 0
    ensures s.at / width * width <= s.at
  {
  }

  lemma LateSampleIsFuture(p: Period, s: Sample)
    requires Resolve(p).Some?
    requires var w := Resolve(p).value; Selects(w, s) && s.at > w.since + w.hours * HOUR
    ensures p.LastHours? && s.at > p.now
  {
    WindowIsShort(p);
  }

  /**
   Whatever the samples, every point after the 301st is of a slot that begins after the end of the window; so
   there are at most 301 points unless a period counted back from now has samples from the future.
   */
  lemma {:induction false} AtMost301Points(samples: seq<Sample>, p: Period, keys: seq<int>, out: seq<Point>)
    requires Resolve(p).Some?
    requires var w := Resolve(p).value; Charts(out, keys, Filter(samples, Selected(w)), Width(w))
    ensures var w := Resolve(p).value; forall i :: 301 <= i < |out| ==> keys[i] * Width(w) > w.since + w.hours * HOUR
    ensures |out| <= 301 || (p.LastHours? && exists s :: s in samples && s.at > p.now)
  {
    var w := Resolve(p).value;
    forall i | 301 <= i < |out| ensures keys[i] * Width(w) > w.since + w.hours * HOUR {
      LaterPoints(samples, p, keys, out, i);
    }
    if |out| > 301 {
      assert keys[301] in keys;
      var s := SlotHasSample(samples, w, Width(w), keys[301]);
      SlotBegins(s, Width(w));
      LateSampleIsFuture(p, s);
    }
  }

  /** The points are in order of time, one to a moment. */
  lemma PointsInOrder(rows: seq<Sample>, width: int, keys: seq<int>, out: seq<Point>, i: nat, j: nat)
    requires width > 0 && Charts(out, keys, rows, width) && i < j < |out|
    ensures out[i].at < out[j].at
  {
    assert keys[i] in keys && keys[j] in keys && keys[i] < keys[j];
    Product(keys[i], keys[j], width);
  }

  /** What the points stand for, each counted as many times as it has samples. */
  function SlotTotals(keys: seq<int>, rows: seq<Sample>, width: int, m: Metric): real
    requires width > 0 && forall k :: k in keys ==> Slot(rows, width, k) != []
  {
    if |keys| == 0 then 0.0
    else
      var init, last := keys[..|keys| - 1], keys[|keys| - 1];
      assert last in keys && forall k :: k in init ==> k in keys;
      SlotTotals(init, rows, width, m) + Weight(Slot(rows, width, last), m)
  }

  function SlotSums(keys: seq<int>, rows: seq<Sample>, width: int, m: Metric): real
    requires width > 0
  {
    if |keys| == 0 then 0.0
    else SlotSums(keys[..|keys| - 1], rows, width, m) + Sum(Slot(rows, width, keys[|keys| - 1]), m)
  }

  function SlotCounts(keys: seq<int>, rows: seq<Sample>, width: int): nat
    requires width > 0
  {
    if |keys| == 0 then 0
    else SlotCounts(keys[..|keys| - 1], rows, width) + |Slot(rows, width, keys[|keys| - 1])|
  }

  lemma {:induction false} SlotTotalsAreSums(keys: seq<int>, rows: seq<Sample>, width: int, m: Metric)
    requires width > 0 && forall k :: k in keys ==> Slot(rows, width, k) != []
    ensures SlotTotals(keys, rows, width, m) == SlotSums(keys, rows, width, m)
  {
    if |keys| > 0 {
      var init, last := keys[..|keys| - 1], keys[|keys| - 1];
      assert last in keys && forall k :: k in init ==> k in keys;
      SlotTotalsAreSums(init, rows, width, m);
    }
  }

  lemma {:induction false} SlotSumStep(rows: seq<Sample>, width: int, k: int, m: Metric)
    requires width > 0 && |rows| > 0
    ensures var before, last := rows[..|rows| - 1], rows[|rows| - 1];
            var mine := last.at / width == k;
            && Sum(Slot(rows, width, k), m) == Sum(Slot(before, width, k), m) + (if mine then Value(last, m) else 0.0)
            && |Slot(rows, width, k)| == |Slot(before, width, k)| + if mine then 1 else 0
  {
    var before, last := rows[..|rows| - 1], rows[|rows| - 1];
    var slot := Slot(before, width, k);
    assert Slot(rows, width, k) == slot + if InSlot(width, k)(last) then [last] else [];
    assert (slot + [last])[..|slot|] == slot && slot + [] == slot;
  }

  /** One more sample counts once, in the slot it falls in. */
  lemma {:induction false} SlotSumsStep(keys: seq<int>, rows: seq<Sample>, width: int, m: Metric)
    requires width > 0 && Ascending(keys) && |rows| > 0
    ensures var last := rows[|rows| - 1];
            var mine := last.at / width in keys;
            && SlotSums(keys, rows, width, m)
              == SlotSums(keys, rows[..|rows| - 1], width, m) + (if mine then Value(last, m) else 0.0)
            && SlotCounts(keys, rows, width) == SlotCounts(keys, rows[..|rows| - 1], width) + if mine then 1 else 0
  {
    if |keys| > 0 {
      var init, k := keys[..|keys| - 1], keys[|keys| - 1];
      assert keys == init + [k] && k !in init;
      SlotSumsStep(init, rows, width, m);
      SlotSumStep(rows, width, k, m);
    }
  }

  lemma {:induction false} SlotSumsNothing(keys: seq<int>, width: int, m: Metric)
    requires width > 0
    ensures SlotSums(keys, [], width, m) == 0.0 && SlotCounts(keys, [], width) == 0
  {
    if |keys| > 0 {
      SlotSumsNothing(keys[..|keys| - 1], width, m);
    }
  }

  lemma {:induction false} SlotsAddUp(keys: seq<int>, rows: seq<Sample>, width: int, m: Metric)
    requires width > 0 && Ascending(keys) && forall s :: s in rows ==> s.at / width in keys
    ensures SlotSums(keys, rows, width, m) == Sum(rows, m) && SlotCounts(keys, rows, width) == |rows|
  {
    if |rows| == 0 {
      SlotSumsNothing(keys, width, m);
    } else {
      assert rows[|rows| - 1] in rows && forall s :: s in rows[..|rows| - 1] ==> s in rows;
      SlotSumsStep(keys, rows, width, m);
      SlotsAddUp(keys, rows[..|rows| - 1], width, m);
    }
  }

  /** Every sample is counted in exactly one point, and the points together stand for all of them. */
  lemma {:induction false} ChartConserves(rows: seq<Sample>, width: int, keys: seq<int>, out: seq<Point>, m: Metric)
    requires width > 0 && Charts(out, keys, rows, width)
    ensures SlotTotals(keys, rows, width, m) == Sum(rows, m) && SlotCounts(keys, rows, width) == |rows|
  {
    forall s | s in rows ensures s.at / width in keys {
      FilterMembers(rows, InSlot(width, s.at / width));
      assert s in Slot(rows, width, s.at / width);
    }
    SlotTotalsAreSums(keys, rows, width, m);
    SlotsAddUp(keys, rows, width, m);
  }
}
