/** The hourly rollup of one sensor: the upsert that folds one reading into its window, against the
    plain aggregate of all the readings of that window, over exact reals. */
module Rollup {
  import opened Numbers
  import opened Telemetry
  import opened Sequences

  const HOUR := 3_600_000_000

  /** The start of the hour an instant falls in. */
  function WindowStart(at: int): (start: int)
    ensures start <= at < start + HOUR && start % HOUR == 0
  {
    at - at % HOUR
  }

  /** Every instant lies in exactly one window. */
  lemma WindowsPartitionTime(at: int, start: int)
    requires start % HOUR == 0
    ensures start <= at < start + HOUR <==> start == WindowStart(at)
  {
    if start <= at < start + HOUR {
      assert at == HOUR * (start / HOUR) + (at - start);
    }
  }

  datatype Stats = Stats(min: real, max: real, avg: real)

  datatype Bucket = Bucket(moisture: Stats, temperature: Stats, count: nat)

  function Moisture(r: Reading): real { r.moisture }
  function Temperature(r: Reading): real { r.temperature }

  // ---------------------------------------------------------------- the upsert

  function One(v: real): Stats {
    Stats(v, v, v)
  }

  function MeanWith(avg: real, count: nat, v: real): real {
    (avg * count as real + v) / (count + 1) as real
  }

  /** The conflict clause: `v` is the new sample, `count` the stored number of samples. */
  function FoldIn(s: Stats, count: nat, v: real): Stats {
    Stats(if v < s.min then v else s.min, if v > s.max then v else s.max,
          MeanWith(s.avg, count, v))
  }

  function Upsert(buckets: map<int, Bucket>, r: Reading): map<int, Bucket> {
    var w := WindowStart(r.at);
    if w !in buckets then buckets[w := Bucket(One(r.moisture), One(r.temperature), 1)]
    else
      var b := buckets[w];
      buckets[w := Bucket(FoldIn(b.moisture, b.count, r.moisture), FoldIn(b.temperature, b.count, r.temperature), b.count + 1)]
  }

  /** The table after the readings were projected one by one. */
  function Rollups(readings: seq<Reading>): map<int, Bucket> {
    if readings == [] then map[]
    else Upsert(Rollups(readings[..|readings| - 1]), readings[|readings| - 1])
  }

  // ---------------------------------------------------------------- the plain aggregate

  function InWindow(readings: seq<Reading>, w: int): seq<Reading> {
    if readings == [] then []
    else
      var rest := InWindow(readings[..|readings| - 1], w);
      if WindowStart(readings[|readings| - 1].at) == w then rest + [readings[|readings| - 1]] else rest
  }

  ghost function Sum(s: seq<Reading>, f: Reading -> real): real {
    if s == [] then 0.0 else Sum(s[..|s| - 1], f) + f(s[|s| - 1])
  }

  ghost function Min(s: seq<Reading>, f: Reading -> real): (m: real)
    requires s != []
    ensures (forall r :: r in s ==> m <= f(r)) && exists r :: r in s && f(r) == m
  {
    var front, last := s[..|s| - 1], s[|s| - 1];
    assert s == front + [last];
    if front == [] || f(last) < Min(front, f) then f(last) else Min(front, f)
  }

  ghost function Max(s: seq<Reading>, f: Reading -> real): (m: real)
    requires s != []
    ensures (forall r :: r in s ==> f(r) <= m) && exists r :: r in s && f(r) == m
  {
    var front, last := s[..|s| - 1], s[|s| - 1];
    assert s == front + [last];
    if front == [] || f(last) > Max(front, f) then f(last) else Max(front, f)
  }

  ghost function Plain(s: seq<Reading>, f: Reading -> real): Stats
    requires s != []
  {
    Stats(Min(s, f), Max(s, f), Sum(s, f) / |s| as real)
  }

  ghost function Aggregate(s: seq<Reading>): Bucket
    requires s != []
  {
    Bucket(Plain(s, Moisture), Plain(s, Temperature), |s|)
  }

  // ---------------------------------------------------------------- the refinement

  lemma MeanTimesCount(total: real, n: real)
    requires n > 0.0
    ensures total / n * n == total
  {
  }

  lemma PlainOfOneMore(s: seq<Reading>, r: Reading, f: Reading -> real)
    requires s != []
    ensures Min(s + [r], f) == (if f(r) < Min(s, f) then f(r) else Min(s, f))
    ensures Max(s + [r], f) == (if f(r) > Max(s, f) then f(r) else Max(s, f))
    ensures Sum(s + [r], f) == Sum(s, f) + f(r)
  {
    assert (s + [r])[..|s|] == s;
  }

  lemma MeanOfOneMore(total: real, count: nat, v: real)
    requires count > 0
    ensures MeanWith(total / count as real, count, v) == (total + v) / (count + 1) as real
  {
    MeanTimesCount(total, count as real);
  }

  lemma FoldInRefines(s: seq<Reading>, r: Reading, f: Reading -> real)
    requires s != []
    ensures FoldIn(Plain(s, f), |s|, f(r)) == Plain(s + [r], f)
  {
    PlainOfOneMore(s, r, f);
    MeanOfOneMore(Sum(s, f), |s|, f(r));
  }

  lemma OneRefines(r: Reading, f: Reading -> real)
    ensures One(f(r)) == Plain([r], f)
  {
    assert [r][..0] == [];
    assert Sum([r], f) == f(r);
  }

  /** The incremental rollup refines the plain aggregate: after any readings in any order, a window has a
      row exactly when it has a reading, and the row's count, minima, maxima and means are those of all
      the readings of that window. */
  lemma {:induction false} RollupIsTheAggregate(readings: seq<Reading>, w: int)
    ensures w in Rollups(readings) <==> InWindow(readings, w) != []
    ensures w in Rollups(readings) ==> Rollups(readings)[w] == Aggregate(InWindow(readings, w))
  {
    if readings != [] {
      var front, last := readings[..|readings| - 1], readings[|readings| - 1];
      RollupIsTheAggregate(front, w);
      if WindowStart(last.at) == w {
        var before := InWindow(front, w);
        if before == [] {
          assert before + [last] == [last];
          OneRefines(last, Moisture);
          OneRefines(last, Temperature);
        } else {
          FoldInRefines(before, last, Moisture);
          FoldInRefines(before, last, Temperature);
        }
      }
    }
  }

  lemma {:induction false} SumIsBounded(s: seq<Reading>, f: Reading -> real, low: real, high: real)
    requires forall r :: r in s ==> low <= f(r) <= high
    ensures Multiple(low, |s|) <= Sum(s, f) <= Multiple(high, |s|)
  {
    if s != [] {
      var n := |s| - 1;
      assert s == s[..n] + [s[n]] && s[n] in s;
      SumIsBounded(s[..n], f, low, high);
    }
  }

  /** Every reading lies between the extremes of the row of its own hour, in both measures. */
  lemma ReadingsLieInTheirRow(readings: seq<Reading>, r: Reading)
    requires r in readings
    ensures
      var rows := Rollups(readings);
      && WindowStart(r.at) in rows
      && var row := rows[WindowStart(r.at)];
         row.moisture.min <= r.moisture <= row.moisture.max && row.temperature.min <= r.temperature <= row.temperature.max
  {
    var w := WindowStart(r.at);
    RollupIsTheAggregate(readings, w);
    InItsWindow(readings, r);
    var s := InWindow(readings, w);
    assert Min(s, Moisture) <= Moisture(r) <= Max(s, Moisture);
    assert Min(s, Temperature) <= Temperature(r) <= Max(s, Temperature);
  }

  lemma {:induction false} InItsWindow(readings: seq<Reading>, r: Reading)
    requires r in readings
    ensures r in InWindow(readings, WindowStart(r.at))
  {
    var n := |readings| - 1;
    if r in readings[..n] {
      InItsWindow(readings[..n], r);
    } else {
      assert readings == readings[..n] + [readings[n]];
    }
  }

  /** A mean lies between the extremes of its window. */
  lemma MeanIsBetweenExtremes(readings: seq<Reading>, w: int)
    requires w in Rollups(readings)
    ensures
      var b := Rollups(readings)[w];
      && b.moisture.min <= b.moisture.avg <= b.moisture.max
      && b.temperature.min <= b.temperature.avg <= b.temperature.max
  {
    RollupIsTheAggregate(readings, w);
    PlainIsOrdered(InWindow(readings, w), Moisture);
    PlainIsOrdered(InWindow(readings, w), Temperature);
  }

  lemma PlainIsOrdered(s: seq<Reading>, f: Reading -> real)
    requires s != []
    ensures Plain(s, f).min <= Plain(s, f).avg <= Plain(s, f).max
  {
    MeanIsBounded(s, f, Min(s, f), Max(s, f));
  }

  lemma MeanIsBounded(s: seq<Reading>, f: Reading -> real, low: real, high: real)
    requires s != [] && forall r :: r in s ==> low <= f(r) <= high
    ensures low <= Sum(s, f) / |s| as real <= high
  {
    SumIsBounded(s, f, low, high);
    MultipleIsProduct(low, |s|);
    MultipleIsProduct(high, |s|);
    DivisionKeepsBounds(low, Sum(s, f), high, |s| as real);
  }

  lemma SignOfFactor(x: real, n: real)
    requires n > 0.0 && x * n >= 0.0
    ensures x >= 0.0
  {
  }

  lemma DivisionKeepsBounds(low: real, total: real, high: real, n: real)
    requires n > 0.0 && low * n <= total <= high * n
    ensures low <= total / n <= high
  {
    MeanTimesCount(total, n);
    SignOfFactor(total / n - low, n);
    SignOfFactor(high - total / n, n);
  }

  // ---------------------------------------------------------------- order does not matter

  lemma {:induction false} WindowMultiset(readings: seq<Reading>, w: int, r: Reading)
    ensures multiset(InWindow(readings, w))[r] == if WindowStart(r.at) == w then multiset(readings)[r] else 0
  {
    if readings != [] {
      var front, last := readings[..|readings| - 1], readings[|readings| - 1];
      WindowMultiset(front, w, r);
      assert readings == front + [last];
    }
  }

  lemma {:induction false} SumTakesOut(s: seq<Reading>, k: nat, f: Reading -> real)
    requires k < |s|
    ensures Sum(s, f) == f(s[k]) + Sum(s[..k] + s[k + 1..], f)
  {
    var n := |s| - 1;
    var front := s[..n];
    if k < n {
      SumTakesOut(front, k, f);
      assert (s[..k] + s[k + 1..])[..n - 1] == front[..k] + front[k + 1..];
    } else {
      assert s[..k] + s[k + 1..] == front;
    }
  }

  lemma WithoutOne(s: seq<Reading>, k: nat)
    requires k < |s|
    ensures multiset(s[..k] + s[k + 1..]) == multiset(s) - multiset{s[k]}
  {
    assert s == s[..k] + [s[k]] + s[k + 1..];
  }

  lemma LastOccursIn(a: seq<Reading>, b: seq<Reading>) returns (k: nat)
    requires multiset(a) == multiset(b) && a != []
    ensures k < |b| && b[k] == a[|a| - 1]
    ensures multiset(a[..|a| - 1]) == multiset(b[..k] + b[k + 1..])
  {
    var front, last := a[..|a| - 1], a[|a| - 1];
    assert a == front + [last];
    assert last in multiset(b);
    assert last in b;
    k :| 0 <= k < |b| && b[k] == last;
    WithoutOne(b, k);
  }

  lemma {:induction false} SumIgnoresOrder(a: seq<Reading>, b: seq<Reading>, f: Reading -> real)
    requires multiset(a) == multiset(b)
    ensures Sum(a, f) == Sum(b, f)
    decreases |a|
  {
    if a == [] {
      assert |b| == |multiset(b)|;
    } else {
      var k := LastOccursIn(a, b);
      SumTakesOut(b, k, f);
      SumIgnoresOrder(a[..|a| - 1], b[..k] + b[k + 1..], f);
    }
  }

  lemma PlainIgnoresOrder(a: seq<Reading>, b: seq<Reading>, f: Reading -> real)
    requires multiset(a) == multiset(b) && a != [] && b != []
    ensures Plain(a, f) == Plain(b, f)
  {
    assert |multiset(a)| == |a| && |multiset(b)| == |b|;
    SumIgnoresOrder(a, b, f);
    assert forall r :: (r in a <==> r in multiset(a)) && (r in b <==> r in multiset(b));
  }

  /** Projecting the same readings in any other order gives the same table. */
  lemma RollupsIgnoreOrder(a: seq<Reading>, b: seq<Reading>)
    requires multiset(a) == multiset(b)
    ensures Rollups(a) == Rollups(b)
  {
    forall w ensures (w in Rollups(a) <==> w in Rollups(b)) && (w in Rollups(a) ==> Rollups(a)[w] == Rollups(b)[w]) {
      RollupIsTheAggregate(a, w);
      RollupIsTheAggregate(b, w);
      var x, y := InWindow(a, w), InWindow(b, w);
      forall r ensures multiset(x)[r] == multiset(y)[r] {
        WindowMultiset(a, w, r);
        WindowMultiset(b, w, r);
      }
      assert multiset(x) == multiset(y);
      assert |multiset(x)| == |x| && |multiset(y)| == |y|;
      if x != [] {
        PlainIgnoresOrder(x, y, Moisture);
        PlainIgnoresOrder(x, y, Temperature);
      }
    }
  }

  // ---------------------------------------------------------------- every reading is counted once

  ghost function Counted(buckets: map<int, Bucket>, windows: set<int>): nat
    requires windows <= buckets.Keys
    decreases |windows|
  {
    if windows == {} then 0
    else
      var w := Greatest(windows);
      buckets[w].count + Counted(buckets, windows - {w})
  }

  lemma {:induction false} CountedAfterUpdate(buckets: map<int, Bucket>, windows: set<int>, w: int, b: Bucket)
    requires windows <= buckets.Keys
    ensures windows + {w} <= buckets[w := b].Keys
    ensures Counted(buckets[w := b], windows + {w})
      == Counted(buckets, windows) + b.count - (if w in windows then buckets[w].count else 0)
    decreases |windows|
  {
    var all := windows + {w};
    var top := Greatest(all);
    CountedTop(buckets[w := b], all);
    if top == w {
      TopWindowUpdated(buckets, windows, w, b);
    } else {
      assert Greatest(windows) == top;
      CountedTop(buckets, windows);
      CountedAfterUpdate(buckets, windows - {top}, w, b);
      assert all - {top} == windows - {top} + {w};
    }
  }

  lemma TopWindowUpdated(buckets: map<int, Bucket>, windows: set<int>, w: int, b: Bucket)
    requires windows <= buckets.Keys && Greatest(windows + {w}) == w
    ensures Counted(buckets[w := b], windows + {w} - {w})
      == Counted(buckets, windows) - (if w in windows then buckets[w].count else 0)
  {
    CountedElsewhere(buckets, windows - {w}, w, b);
    assert windows + {w} - {w} == windows - {w};
    if w in windows {
      assert Greatest(windows) == w;
      CountedTop(buckets, windows);
    } else {
      assert windows - {w} == windows;
    }
  }

  lemma CountedTop(buckets: map<int, Bucket>, windows: set<int>)
    requires windows <= buckets.Keys && windows != {}
    ensures Counted(buckets, windows) ==
      buckets[Greatest(windows)].count + Counted(buckets, windows - {Greatest(windows)})
  {
  }

  lemma {:induction false} CountedElsewhere(buckets: map<int, Bucket>, windows: set<int>, w: int, b: Bucket)
    requires windows <= buckets.Keys && w !in windows
    ensures Counted(buckets[w := b], windows) == Counted(buckets, windows)
    decreases |windows|
  {
    if windows != {} {
      CountedElsewhere(buckets, windows - {Greatest(windows)}, w, b);
    }
  }

  /** Conservation: the counts of all windows sum to the number of readings. */
  lemma {:induction false} CountsSumToReadings(readings: seq<Reading>)
    ensures Counted(Rollups(readings), Rollups(readings).Keys) == |readings|
  {
    if readings != [] {
      var front, last := readings[..|readings| - 1], readings[|readings| - 1];
      CountsSumToReadings(front);
      var before, w := Rollups(front), WindowStart(last.at);
      CountedAfterUpdate(before, before.Keys, w, Rollups(readings)[w]);
      assert Rollups(readings).Keys == before.Keys + {w};
      assert Rollups(readings) == before[w := Rollups(readings)[w]];
    }
  }

  // ---------------------------------------------------------------- delivered at least once

  datatype Delivery = Delivery(eventId: nat, reading: Reading)

  /** The readings of the first delivery of each event. */
  ghost function FirstDeliveries(deliveries: seq<Delivery>): seq<Reading> {
    if deliveries == [] then []
    else
      var front, last := deliveries[..|deliveries| - 1], deliveries[|deliveries| - 1];
      if last.eventId in EventIds(front) then FirstDeliveries(front) else FirstDeliveries(front) + [last.reading]
  }

  ghost function EventIds(deliveries: seq<Delivery>): set<nat> {
    set k | 0 <= k < |deliveries| :: deliveries[k].eventId
  }

  /** `Projection.apply`: the ledger row and the projected row commit together. */
  class Projection {
    var ledger: set<nat>
    var buckets: map<int, Bucket>
    ghost var delivered: seq<Delivery>

    ghost predicate Valid()
      reads this
    {
      ledger == EventIds(delivered) && buckets == Rollups(FirstDeliveries(delivered))
    }

    constructor ()
      ensures Valid() && delivered == []
    {
      ledger, buckets, delivered := {}, map[], [];
    }

    /** Whatever is delivered again, the table stays the rollup of every event once. */
    method Apply(d: Delivery) returns (applied: bool)
      requires Valid()
      modifies this
      ensures Valid() && delivered == old(delivered) + [d]
      ensures applied <==> d.eventId !in EventIds(old(delivered))
    {
      applied := d.eventId !in ledger;
      if applied {
        ledger := ledger + {d.eventId};
        buckets := Upsert(buckets, d.reading);
      }
      IdsGrow(delivered, d);
      FirstDeliveriesGrow(delivered, d);
      RollupsGrow(FirstDeliveries(delivered), d.reading);
      delivered := delivered + [d];
    }
  }

  lemma FirstDeliveriesGrow(deliveries: seq<Delivery>, d: Delivery)
    ensures FirstDeliveries(deliveries + [d]) ==
      if d.eventId in EventIds(deliveries) then FirstDeliveries(deliveries) else FirstDeliveries(deliveries) + [d.reading]
  {
    assert (deliveries + [d])[..|deliveries|] == deliveries;
  }

  lemma RollupsGrow(readings: seq<Reading>, r: Reading)
    ensures Rollups(readings + [r]) == Upsert(Rollups(readings), r)
  {
    assert (readings + [r])[..|readings|] == readings;
  }

  lemma IdsGrow(deliveries: seq<Delivery>, d: Delivery)
    ensures EventIds(deliveries + [d]) == EventIds(deliveries) + {d.eventId}
  {
    var all := deliveries + [d];
    assert all[|deliveries|] == d;
    assert forall k :: 0 <= k < |deliveries| ==> all[k] == deliveries[k];
  }
}
