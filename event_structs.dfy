/**
 * The per-symbol trade event aggregator (src/event_structs.rs): trades are grouped
 * into one-second buckets counted from the 9:30 open, each bucket keeps its trades in
 * arrival order with running totals, and the read-outs walk the buckets in ascending
 * order. Times are exact nanoseconds since midnight and prices are the already scaled
 * integers (the f64 seconds and the f32 price scaling of the source are not modelled).
 */
module EventStructs {
  import opened TimeFuncs

  /** 9:30:00 in seconds since midnight. */
  const DAY_OFFSET: int := 34200
  const HALF: int := 500_000_000

  /** One trade inside a bucket: its offset from the bucket's second in nanoseconds, its price and its volume. */
  datatype MuEvent = MuEvent(uSec: int, price: int, volume: int)

  /** `f64::round`: the nearest whole number of seconds to `d` nanoseconds, halves away from zero. */
  function RoundHalfAway(d: int): (k: int)
    ensures k * BILLION - HALF <= d <= k * BILLION + HALF
    ensures d >= 0 ==> d < k * BILLION + HALF
    ensures d < 0 ==> k * BILLION - HALF < d
  {
    if d >= 0 then (d + HALF) / BILLION else -((-d + HALF) / BILLION)
  }

  /** The bucket of a time and the time's offset in it: `idx` and `u_sec` of `EventList::update`. */
  datatype Slot = Slot(idx: int, uSec: int)

  function SlotOf(time: int): (r: Slot)
    ensures (DAY_OFFSET + r.idx) * BILLION + r.uSec == time
    ensures -HALF <= r.uSec <= HALF
  {
    var idx := RoundHalfAway(time - DAY_OFFSET * BILLION);
    Slot(idx, time - DAY_OFFSET * BILLION - idx * BILLION)
  }

  /** The bucket a time falls in. */
  function BucketOf(time: int): int
  {
    SlotOf(time).idx
  }

  /** A trade of bucket k: its time is rounded into bucket k. */
  predicate InBucket(k: int, e: MuEvent)
  {
    BucketOf((DAY_OFFSET + k) * BILLION + e.uSec) == k
  }

  function PriceSum(tics: seq<MuEvent>): int
  {
    if tics == [] then 0 else PriceSum(tics[..|tics| - 1]) + tics[|tics| - 1].price
  }

  function VolumeSum(tics: seq<MuEvent>): int
  {
    if tics == [] then 0 else VolumeSum(tics[..|tics| - 1]) + tics[|tics| - 1].volume
  }

  /** The trades of one second (`Event`) with their running totals. */
  class Event {
    var tics: seq<MuEvent>
    var totalPrice: int
    var totalVolume: int
    var tickCount: int

    /** The running totals are the count, the price sum and the volume sum of the trades. */
    ghost predicate Valid()
      reads this
    {
      tickCount == |tics| && totalPrice == PriceSum(tics) && totalVolume == VolumeSum(tics)
    }

    /** An event holding one trade. */
    constructor (price: int, volume: int, uSec: int)
      ensures Valid()
      ensures tics == [MuEvent(uSec, price, volume)]
      ensures tickCount == 1 && totalPrice == price && totalVolume == volume
    {
      tics := [MuEvent(uSec, price, volume)];
      totalPrice := price;
      totalVolume := volume;
      tickCount := 1;
    }

    /** Appends a trade and adds it to the totals. */
    method Update(price: int, volume: int, uSec: int)
      requires Valid()
      modifies this
      ensures Valid()
      ensures tics == old(tics) + [MuEvent(uSec, price, volume)]
      ensures totalPrice == old(totalPrice) + price && totalVolume == old(totalVolume) + volume
      ensures tickCount == old(tickCount) + 1
    {
      totalPrice := totalPrice + price;
      totalVolume := totalVolume + volume;
      tickCount := tickCount + 1;
      tics := tics + [MuEvent(uSec, price, volume)];
    }

    /** The traded volume of the second. */
    function GetVolume(): (v: int)
      requires Valid()
      reads this
      ensures v == VolumeSum(tics)
    {
      totalVolume
    }
  }

  predicate Increasing(ks: seq<int>)
  {
    forall i, j :: 0 <= i < j < |ks| ==> ks[i] < ks[j]
  }

  /** The keys of an ordered map after inserting a new key. */
  function InsertSorted(ks: seq<int>, k: int): (r: seq<int>)
    ensures forall x :: x in r <==> x in ks || x == k
    ensures Increasing(ks) && k !in ks ==> Increasing(r)
  {
    if ks == [] || k < ks[0] then [k] + ks
    else
      var rest := InsertSorted(ks[1..], k);
      assert forall x :: x in ks <==> x == ks[0] || x in ks[1..];
      var r := [ks[0]] + rest;
      assert Increasing(ks) && k !in ks ==> Increasing(r) by {
        if Increasing(ks) && k !in ks {
          assert forall x | x in rest :: ks[0] < x;
          forall i, j | 0 <= i < j < |r|
            ensures r[i] < r[j]
          {
            if i == 0 {
              assert r[j] in rest;
            } else {
              assert r[i] == rest[i - 1] && r[j] == rest[j - 1];
            }
          }
        }
      }
      r
  }

  /** One point of the time series: nanoseconds since midnight, price and volume. */
  datatype Point = Point(time: int, price: int, volume: int)

  function ToPoint(k: int, e: MuEvent): Point
  {
    Point((DAY_OFFSET + k) * BILLION + e.uSec, e.price, e.volume)
  }

  /** The points of one bucket, in arrival order. */
  function Points(k: int, tics: seq<MuEvent>): (r: seq<Point>)
    ensures |r| == |tics|
  {
    seq(|tics|, j requires 0 <= j < |tics| => ToPoint(k, tics[j]))
  }

  /** The time series of the buckets `ks` with trades `c`: bucket after bucket, each in arrival order. */
  function Series(ks: seq<int>, c: map<int, seq<MuEvent>>): seq<Point>
    requires forall k | k in ks :: k in c
  {
    if ks == [] then [] else Points(ks[0], c[ks[0]]) + Series(ks[1..], c)
  }

  function PointVolume(s: seq<Point>): int
  {
    if s == [] then 0 else PointVolume(s[..|s| - 1]) + s[|s| - 1].volume
  }

  /** The points of the series that fall in bucket k. */
  function InBucketPoints(s: seq<Point>, k: int): seq<Point>
  {
    if s == [] then []
    else (if BucketOf(s[0].time) == k then [s[0]] else []) + InBucketPoints(s[1..], k)
  }

  lemma {:induction false} SeriesAppend(a: seq<int>, b: seq<int>, c: map<int, seq<MuEvent>>)
    requires forall k | k in a + b :: k in c
    ensures Series(a + b, c) == Series(a, c) + Series(b, c)
  {
    if a != [] {
      assert (a + b)[1..] == a[1..] + b;
      SeriesAppend(a[1..], b, c);
    } else {
      assert a + b == b;
    }
  }

  lemma {:induction false} PointVolumeAppend(s: seq<Point>, t: seq<Point>)
    ensures PointVolume(s + t) == PointVolume(s) + PointVolume(t)
  {
    if t != [] {
      PointVolumeAppend(s, t[..|t| - 1]);
      assert (s + t)[..|s + t| - 1] == s + t[..|t| - 1];
    } else {
      assert s + t == s;
    }
  }

  /** The points of a bucket carry its trades' volume. */
  lemma {:induction false} PointsVolume(k: int, tics: seq<MuEvent>)
    ensures PointVolume(Points(k, tics)) == VolumeSum(tics)
  {
    if tics != [] {
      PointsVolume(k, tics[..|tics| - 1]);
      assert Points(k, tics)[..|tics| - 1] == Points(k, tics[..|tics| - 1]);
    }
  }

  /** Changing the trades of a bucket outside `ks` does not change the series of `ks`. */
  lemma {:induction false} SeriesIgnores(ks: seq<int>, c: map<int, seq<MuEvent>>, k: int, tics: seq<MuEvent>)
    requires forall x | x in ks :: x in c
    requires k !in ks
    ensures Series(ks, c[k := tics]) == Series(ks, c)
  {
    if ks != [] {
      SeriesIgnores(ks[1..], c, k, tics);
    }
  }

  /**
   * A trade added to an existing bucket lengthens the series by one point and adds its
   * volume.
   */
  lemma {:induction false} SeriesExtend(ks: seq<int>, c: map<int, seq<MuEvent>>, k: int, e: MuEvent)
    requires forall x | x in ks :: x in c
    requires Increasing(ks) && k in ks
    ensures |Series(ks, c[k := c[k] + [e]])| == |Series(ks, c)| + 1
    ensures PointVolume(Series(ks, c[k := c[k] + [e]])) == PointVolume(Series(ks, c)) + e.volume
  {
    var c' := c[k := c[k] + [e]];
    if ks[0] == k {
      assert k !in ks[1..];
      SeriesIgnores(ks[1..], c, k, c[k] + [e]);
      assert Points(k, c[k] + [e]) == Points(k, c[k]) + [ToPoint(k, e)];
      PointVolumeAppend(Points(k, c[k]), [ToPoint(k, e)]);
      PointVolumeAppend(Points(k, c[k]) + [ToPoint(k, e)], Series(ks[1..], c));
      PointVolumeAppend(Points(k, c[k]), Series(ks[1..], c));
    } else {
      SeriesExtend(ks[1..], c, k, e);
      PointVolumeAppend(Points(ks[0], c[ks[0]]), Series(ks[1..], c'));
      PointVolumeAppend(Points(ks[0], c[ks[0]]), Series(ks[1..], c));
    }
  }

  /**
   * A trade that opens a new bucket lengthens the series by one point and adds its
   * volume.
   */
  lemma {:induction false} SeriesInsert(ks: seq<int>, c: map<int, seq<MuEvent>>, k: int, e: MuEvent)
    requires forall x | x in ks :: x in c
    requires k !in ks
    ensures forall x | x in InsertSorted(ks, k) :: x in c[k := [e]]
    ensures |Series(InsertSorted(ks, k), c[k := [e]])| == |Series(ks, c)| + 1
    ensures PointVolume(Series(InsertSorted(ks, k), c[k := [e]])) == PointVolume(Series(ks, c)) + e.volume
  {
    var c' := c[k := [e]];
    if ks == [] || k < ks[0] {
      SeriesIgnores(ks, c, k, [e]);
      assert InsertSorted(ks, k)[1..] == ks;
      PointVolumeAppend(Points(k, [e]), Series(ks, c));
      assert PointVolume(Points(k, [e])) == e.volume by {
        assert Points(k, [e])[..0] == [];
      }
    } else {
      SeriesInsert(ks[1..], c, k, e);
      assert InsertSorted(ks, k)[1..] == InsertSorted(ks[1..], k);
      PointVolumeAppend(Points(ks[0], c[ks[0]]), Series(InsertSorted(ks[1..], k), c'));
      PointVolumeAppend(Points(ks[0], c[ks[0]]), Series(ks[1..], c));
    }
  }

  predicate AllInBucket(k: int, tics: seq<MuEvent>)
  {
    forall e | e in tics :: InBucket(k, e)
  }

  /** Every trade of every bucket in `ks` is rounded into its bucket. */
  predicate Bucketed(ks: seq<int>, c: map<int, seq<MuEvent>>)
  {
    forall k | k in ks :: k in c && AllInBucket(k, c[k])
  }

  /** The points of a bucket all lie in it. */
  lemma {:induction false} PointsInBucket(k: int, tics: seq<MuEvent>)
    requires AllInBucket(k, tics)
    ensures forall i | 0 <= i < |Points(k, tics)| :: BucketOf(Points(k, tics)[i].time) == k
  {
    forall i | 0 <= i < |tics|
      ensures BucketOf(Points(k, tics)[i].time) == k
    {
      assert tics[i] in tics;
    }
  }

  /** No point is followed by a point of an earlier bucket. */
  predicate BucketOrdered(s: seq<Point>)
  {
    forall i, j | 0 <= i < j < |s| :: BucketOf(s[i].time) <= BucketOf(s[j].time)
  }

  /** Every point of the series lies in one of the buckets `ks`. */
  lemma {:induction false} SeriesBuckets(ks: seq<int>, c: map<int, seq<MuEvent>>)
    requires Bucketed(ks, c)
    ensures forall i | 0 <= i < |Series(ks, c)| :: BucketOf(Series(ks, c)[i].time) in ks
  {
    if ks != [] {
      var k := ks[0];
      var head := Points(k, c[k]);
      var rest := Series(ks[1..], c);
      SeriesBuckets(ks[1..], c);
      PointsInBucket(k, c[k]);
      var s := head + rest;
      forall i | 0 <= i < |s|
        ensures BucketOf(s[i].time) in ks
      {
        if i >= |head| {
          assert s[i] == rest[i - |head|];
          assert BucketOf(rest[i - |head|].time) in ks[1..];
        }
      }
    }
  }

  /** A run of points of bucket k followed by an ordered run of later buckets is ordered. */
  lemma {:induction false} OrderedJoin(head: seq<Point>, rest: seq<Point>, k: int)
    requires forall i | 0 <= i < |head| :: BucketOf(head[i].time) == k
    requires forall i | 0 <= i < |rest| :: k < BucketOf(rest[i].time)
    requires BucketOrdered(rest)
    ensures BucketOrdered(head + rest)
  {
    var s := head + rest;
    forall i, j | 0 <= i < j < |s|
      ensures BucketOf(s[i].time) <= BucketOf(s[j].time)
    {
      if j < |head| {
        assert s[i] == head[i] && s[j] == head[j];
      } else if i < |head| {
        assert s[i] == head[i] && s[j] == rest[j - |head|];
      } else {
        assert s[i] == rest[i - |head|] && s[j] == rest[j - |head|];
      }
    }
  }

  /** The series is ordered by ascending bucket. */
  lemma {:induction false} SeriesOrdered(ks: seq<int>, c: map<int, seq<MuEvent>>)
    requires Increasing(ks) && Bucketed(ks, c)
    ensures BucketOrdered(Series(ks, c))
  {
    if ks != [] {
      var k := ks[0];
      var rest := Series(ks[1..], c);
      SeriesOrdered(ks[1..], c);
      SeriesBuckets(ks[1..], c);
      PointsInBucket(k, c[k]);
      assert forall x | x in ks[1..] :: k < x;
      OrderedJoin(Points(k, c[k]), rest, k);
    }
  }

  lemma {:induction false} InBucketPointsAppend(s: seq<Point>, t: seq<Point>, k: int)
    ensures InBucketPoints(s + t, k) == InBucketPoints(s, k) + InBucketPoints(t, k)
  {
    if s != [] {
      assert (s + t)[1..] == s[1..] + t;
      InBucketPointsAppend(s[1..], t, k);
    } else {
      assert s + t == t;
    }
  }

  /** Taking the points of bucket k from a run of points all in bucket k keeps them all, or none if they are in another. */
  lemma {:induction false} InBucketPointsOfBucket(s: seq<Point>, b: int, k: int)
    requires forall i | 0 <= i < |s| :: BucketOf(s[i].time) == b
    ensures InBucketPoints(s, k) == if b == k then s else []
  {
    if s != [] {
      InBucketPointsOfBucket(s[1..], b, k);
    }
  }

  /** Within the series, the points of each bucket are exactly its trades in arrival order. */
  lemma {:induction false} SeriesArrival(ks: seq<int>, c: map<int, seq<MuEvent>>, k: int)
    requires Increasing(ks) && Bucketed(ks, c) && k in ks
    ensures InBucketPoints(Series(ks, c), k) == Points(k, c[k])
  {
    var b := ks[0];
    var head := Points(b, c[b]);
    PointsInBucket(b, c[b]);
    InBucketPointsOfBucket(head, b, k);
    InBucketPointsAppend(head, Series(ks[1..], c), k);
    if b == k {
      assert forall x | x in ks[1..] :: k < x;
      SeriesBuckets(ks[1..], c);
      var rest := Series(ks[1..], c);
      assert forall i | 0 <= i < |rest| :: BucketOf(rest[i].time) != k;
      InBucketPointsNone(rest, k);
      assert head + [] == head;
    } else {
      SeriesArrival(ks[1..], c, k);
    }
  }

  lemma {:induction false} InBucketPointsNone(s: seq<Point>, k: int)
    requires forall i | 0 <= i < |s| :: BucketOf(s[i].time) != k
    ensures InBucketPoints(s, k) == []
  {
    if s != [] {
      InBucketPointsNone(s[1..], k);
    }
  }

  /** The event buckets of one symbol (`EventList`), an ordered map from bucket to event. */
  class EventList {
    /** The buckets present, in ascending order: the iteration order of the `BTreeMap`. */
    var keys: seq<int>
    var events: map<int, Event>
    ghost var Repr: set<object>

    ghost predicate Valid()
      reads this, Repr
    {
      this in Repr &&
      Increasing(keys) &&
      (forall k :: k in events <==> k in keys) &&
      (forall k | k in events :: events[k] in Repr) &&
      (forall k | k in events :: events[k].Valid() && AllInBucket(k, events[k].tics)) &&
      (forall k, j | k in events && j in events && k != j :: events[k] != events[j])
    }

    /** The trades of each bucket. */
    ghost function Contents(): (c: map<int, seq<MuEvent>>)
      requires Valid()
      reads this, Repr
      ensures Bucketed(keys, c)
    {
      map k | k in events :: events[k].tics
    }

    /** The list's time series. */
    ghost function SeriesOf(): seq<Point>
      requires Valid()
      reads this, Repr
    {
      Series(keys, Contents())
    }

    /** An empty list. */
    constructor ()
      ensures Valid() && fresh(Repr)
      ensures keys == [] && events == map[]
    {
      keys := [];
      events := map[];
      Repr := {this};
    }

    /**
     * Records a trade at `time` nanoseconds since midnight: it is appended to its
     * bucket, which is created if missing, and every other bucket is left as it was.
     */
    method Update(time: int, price: int, volume: int)
      requires Valid()
      modifies Repr
      ensures Valid() && fresh(Repr - old(Repr))
      ensures var slot := SlotOf(time);
        var e := MuEvent(slot.uSec, price, volume);
        keys == (if slot.idx in old(keys) then old(keys) else InsertSorted(old(keys), slot.idx)) &&
        Contents() == old(Contents())[slot.idx := (if slot.idx in old(keys) then old(Contents())[slot.idx] else []) + [e]]
      ensures |SeriesOf()| == |old(SeriesOf())| + 1
      ensures PointVolume(SeriesOf()) == PointVolume(old(SeriesOf())) + volume
    {
      var slot := SlotOf(time);
      var e := MuEvent(slot.uSec, price, volume);
      ghost var c := Contents();
      if slot.idx in events {
        AddToBucket(slot.idx, e);
        SeriesExtend(old(keys), c, slot.idx, e);
      } else {
        OpenBucket(slot.idx, e);
        SeriesInsert(old(keys), c, slot.idx, e);
        assert [] + [e] == [e];
      }
    }

    /** Appends a trade to the existing bucket k; the other buckets are untouched. */
    method AddToBucket(k: int, e: MuEvent)
      requires Valid() && k in events && InBucket(k, e)
      modifies events[k]
      ensures Valid() && Repr == old(Repr)
      ensures keys == old(keys) && events == old(events)
      ensures Contents() == old(Contents())[k := old(Contents())[k] + [e]]
    {
      var event := events[k];
      event.Update(e.price, e.volume, e.uSec);
      assert forall j | j in events && j != k :: events[j] != event;
      assert AllInBucket(k, event.tics);
    }

    /** Opens bucket k with one trade; the other buckets are untouched. */
    method OpenBucket(k: int, e: MuEvent)
      requires Valid() && k !in events && InBucket(k, e)
      modifies this
      ensures Valid() && fresh(Repr - old(Repr))
      ensures keys == InsertSorted(old(keys), k)
      ensures Contents() == old(Contents())[k := [e]]
    {
      var event := new Event(e.price, e.volume, e.uSec);
      events := events[k := event];
      keys := InsertSorted(keys, k);
      Repr := Repr + {event};
      assert AllInBucket(k, event.tics);
    }

    /** `get_volume`: the volume of all buckets, which is the volume of the time series. */
    method GetVolume() returns (total: int)
      requires Valid()
      ensures total == PointVolume(SeriesOf())
    {
      ghost var c := Contents();
      total := 0;
      var i := 0;
      while i < |keys|
        invariant 0 <= i <= |keys|
        invariant total == PointVolume(Series(keys[..i], c))
      {
        var k := keys[i];
        SeriesAppend(keys[..i], [k], c);
        assert keys[..i + 1] == keys[..i] + [k];
        assert Series([k], c) == Points(k, c[k]) by {
          assert [k][1..] == [];
          assert Points(k, c[k]) + [] == Points(k, c[k]);
        }
        PointsVolume(k, c[k]);
        PointVolumeAppend(Series(keys[..i], c), Points(k, c[k]));
        assert c[k] == events[k].tics;
        total := total + events[k].GetVolume();
        i := i + 1;
      }
      assert keys[..i] == keys;
    }

    /** `get_event_count`: the number of trades of all buckets, which is the length of the time series. */
    method GetEventCount() returns (count: int)
      requires Valid()
      ensures count == |SeriesOf()|
    {
      ghost var c := Contents();
      count := 0;
      var i := 0;
      while i < |keys|
        invariant 0 <= i <= |keys|
        invariant count == |Series(keys[..i], c)|
      {
        var k := keys[i];
        SeriesAppend(keys[..i], [k], c);
        assert keys[..i + 1] == keys[..i] + [k];
        assert Series([k], c) == Points(k, c[k]) by {
          assert [k][1..] == [];
          assert Points(k, c[k]) + [] == Points(k, c[k]);
        }
        count := count + events[k].tickCount;
        i := i + 1;
      }
      assert keys[..i] == keys;
    }

    /** `get_time_series`: every trade as a point, bucket after bucket in ascending order, each bucket in arrival order. */
    method GetTimeSeries() returns (series: seq<Point>)
      requires Valid()
      ensures series == SeriesOf()
      ensures BucketOrdered(series)
      ensures forall k | k in keys :: InBucketPoints(series, k) == Points(k, Contents()[k])
    {
      SeriesOrdered(keys, Contents());
      forall k | k in keys
        ensures InBucketPoints(Series(keys, Contents()), k) == Points(k, Contents()[k])
      {
        SeriesArrival(keys, Contents(), k);
      }
      ghost var c := Contents();
      series := [];
      var i := 0;
      while i < |keys|
        invariant 0 <= i <= |keys|
        invariant series == Series(keys[..i], c)
      {
        var k := keys[i];
        var tics := events[k].tics;
        ghost var before := series;
        var j := 0;
        while j < |tics|
          invariant 0 <= j <= |tics|
          invariant series == before + Points(k, tics[..j])
        {
          assert Points(k, tics[..j + 1]) == Points(k, tics[..j]) + [ToPoint(k, tics[j])];
          series := series + [ToPoint(k, tics[j])];
          j := j + 1;
        }
        assert tics[..j] == tics;
        SeriesAppend(keys[..i], [k], c);
        assert keys[..i + 1] == keys[..i] + [k];
        assert Series([k], c) == Points(k, c[k]) by {
          assert [k][1..] == [];
          assert Points(k, c[k]) + [] == Points(k, c[k]);
        }
        i := i + 1;
      }
      assert keys[..i] == keys;
    }
  }

  /** A trade's point in the time series carries the very time it was recorded at. */
  lemma {:induction false} PointTime(time: int, price: int, volume: int)
    ensures var slot := SlotOf(time);
      ToPoint(slot.idx, MuEvent(slot.uSec, price, volume)) == Point(time, price, volume)
    ensures InBucket(SlotOf(time).idx, MuEvent(SlotOf(time).uSec, price, volume))
  {
  }

  /** A new list after two trades in the first second after the open, of volume 1 each. */
  method TwoTradesInFirstSecond() returns (el: EventList)
    ensures el.Valid() && fresh(el.Repr)
    ensures el.keys == [0] && PointVolume(el.SeriesOf()) == 2
  {
    assert SlotOf(34200_100100000) == Slot(0, 100100000);
    assert SlotOf(34200_120100000) == Slot(0, 120100000);
    el := new EventList();
    assert el.SeriesOf() == [];
    el.Update(34200_100100000, 11500, 1);
    assert el.keys == [0];
    el.Update(34200_120100000, 12570, 1);
  }

  /**
   * Two trades in the first second after the open share one bucket and a volume of 2;
   * a third of volume 5 twenty seconds later brings the volume to 7.
   */
  method EventListScenario() returns (buckets: int, volume1: int, volume2: int)
    ensures buckets == 1 && volume1 == 2 && volume2 == 7
  {
    var el := TwoTradesInFirstSecond();
    buckets := |el.keys|;
    volume1 := el.GetVolume();
    volume2 := TradeTwentySecondsLater(el);
  }

  /** A trade of volume 5 twenty seconds after the open, added to a list of volume 2, makes its volume 7. */
  method TradeTwentySecondsLater(el: EventList) returns (volume: int)
    requires el.Valid() && el.keys == [0] && PointVolume(el.SeriesOf()) == 2
    modifies el.Repr
    ensures el.Valid() && el.keys == [0, 20]
    ensures volume == 7
  {
    assert SlotOf(34220_120100000) == Slot(20, 120100000);
    assert 20 !in el.keys && InsertSorted(el.keys, 20) == [0, 20];
    el.Update(34220_120100000, 12570, 5);
    assert PointVolume(el.SeriesOf()) == 7;
    volume := el.GetVolume();
  }

  /** A new list after two trades in the first second after the open, priced 6.0 and 12.0. */
  method TwoPricedTrades() returns (el: EventList)
    ensures el.Valid() && fresh(el.Repr)
    ensures el.keys == [0]
    ensures el.Contents()[0] == [MuEvent(100100000, 60000, 1), MuEvent(120100000, 120000, 1)]
  {
    var e1, e2 := MuEvent(100100000, 60000, 1), MuEvent(120100000, 120000, 1);
    assert SlotOf(34200_100100000) == Slot(0, e1.uSec);
    assert SlotOf(34200_120100000) == Slot(0, e2.uSec);
    el := new EventList();
    el.Update(34200_100100000, 60000, 1);
    assert el.keys == [0] && el.Contents()[0] == [e1];
    el.Update(34200_120100000, 120000, 1);
    assert [e1] + [e2] == [e1, e2];
  }

  /** A new list after three trades in the first second after the open. */
  method ThreeTradesInFirstSecond() returns (el: EventList)
    ensures el.Valid() && fresh(el.Repr)
    ensures el.keys == [0]
    ensures el.Contents()[0] == [MuEvent(100100000, 60000, 1), MuEvent(120100000, 120000, 1),
                                 MuEvent(125000000, 110000, 1)]
  {
    el := TwoPricedTrades();
    var e1, e2, e3 := MuEvent(100100000, 60000, 1), MuEvent(120100000, 120000, 1), MuEvent(125000000, 110000, 1);
    assert SlotOf(34200_125000000) == Slot(0, e3.uSec);
    el.Update(34200_125000000, 110000, 1);
    assert [e1, e2] + [e3] == [e1, e2, e3];
  }

  /** Three trades in one second come out of the time series at their own times, in arrival order. */
  method TimeSeriesScenario() returns (series: seq<Point>)
    ensures series == [Point(34200_100100000, 60000, 1), Point(34200_120100000, 120000, 1),
                       Point(34200_125000000, 110000, 1)]
  {
    var el := ThreeTradesInFirstSecond();
    series := el.GetTimeSeries();
    ghost var c := el.Contents();
    assert series == Series([0], c);
    assert Series([0], c) == Points(0, c[0]) by {
      assert [0][1..] == [];
      assert Points(0, c[0]) + [] == Points(0, c[0]);
    }
  }
}
