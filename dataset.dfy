/** A dataset (IndiaTango/Models/Dataset.cs): the buoy it came from, a
    fixed time span, and its sensors in the order they were added. */
module Datasets {
  import opened Common
  import opened ValueTable
  import opened Sensors

  /** The buoy a dataset came from. Its details (IndiaTango/Models/Buoy.cs)
      are not part of this model; only its identity matters here. */
  class Buoy {
    constructor ()
    {
    }
  }

  /** A reading at a time; `GetMissingTimes` reports gaps as readings of 0. */
  datatype DataValue = DataValue(timestamp: Timestamp, value: Reading)

  /** The ticks `p + gap`, `p + 2 * gap`, ... strictly before `n`. */
  function GapFill(p: Timestamp, n: Timestamp, gap: int): seq<Timestamp>
    requires gap > 0
    decreases n - p
  {
    if p + gap >= n then [] else [p + gap] + GapFill(p + gap, n, gap)
  }

  /** The gap ticks between each pair of consecutive timestamps of `order`. */
  function Gaps(order: seq<Timestamp>, gap: int): seq<Timestamp>
    requires gap > 0
  {
    if |order| < 2 then []
    else Gaps(order[..|order| - 1], gap) + GapFill(order[|order| - 2], order[|order| - 1], gap)
  }

  /** The gap ticks of each sensor's readings, sensor after sensor. */
  function AllGaps(orders: seq<seq<Timestamp>>, gap: int): seq<Timestamp>
    requires gap > 0
  {
    if |orders| == 0 then [] else AllGaps(orders[..|orders| - 1], gap) + Gaps(orders[|orders| - 1], gap)
  }

  /** The timestamps of each sensor's current readings, in stored order. */
  function ReadingOrders(sensors: seq<Sensor>): seq<seq<Timestamp>>
    reads sensors
  {
    seq(|sensors|, i requires 0 <= i < |sensors| reads sensors => sensors[i].CurrentValues().order)
  }

  /** Each tick as a zero reading, the form in which gaps are reported. */
  function ZeroReadings(ticks: seq<Timestamp>): (r: seq<DataValue>)
    ensures |r| == |ticks|
    ensures forall k :: 0 <= k < |r| ==> r[k] == DataValue(ticks[k], 0.0)
  {
    seq(|ticks|, k requires 0 <= k < |ticks| => DataValue(ticks[k], 0.0))
  }

  lemma ZeroReadingsConcat(a: seq<Timestamp>, b: seq<Timestamp>)
    ensures ZeroReadings(a + b) == ZeroReadings(a) + ZeroReadings(b)
  {
  }

  /** One more reading of `order` adds the gap after the previous one. */
  lemma GapsStep(order: seq<Timestamp>, i: nat, gap: int)
    requires gap > 0 && 1 <= i < |order|
    ensures Gaps(order[..i + 1], gap) == Gaps(order[..i], gap) + GapFill(order[i - 1], order[i], gap)
  {
    assert order[..i + 1][..i] == order[..i];
  }

  /** Exactly the ticks strictly between `p` and `n` on the cadence from `p`, ascending. */
  lemma {:induction false} GapFillMeaning(p: Timestamp, n: Timestamp, gap: int, x: Timestamp)
    requires gap > 0
    ensures x in GapFill(p, n, gap) <==> p < x < n && (x - p) % gap == 0
    decreases n - p
  {
    ModShift(x - p - gap, gap);
    if p + gap < n {
      GapFillMeaning(p + gap, n, gap, x);
      if p < x && (x - p) % gap == 0 {
        MultipleAtLeast(x - p, gap);
      }
    } else if p < x < n && (x - p) % gap == 0 {
      MultipleAtLeast(x - p, gap);
    }
  }

  lemma {:induction false} GapFillAscending(p: Timestamp, n: Timestamp, gap: int)
    requires gap > 0
    ensures StrictlyAscending(GapFill(p, n, gap))
    ensures forall x :: x in GapFill(p, n, gap) ==> p < x < n
    decreases n - p
  {
    if p + gap < n {
      GapFillAscending(p + gap, n, gap);
      ConsAscending(p + gap, GapFill(p + gap, n, gap));
    }
  }

  /** Consecutive readings one interval apart leave no gap; neither does a
      pair that is not in ascending order. */
  lemma GapFillEmpty(p: Timestamp, n: Timestamp, gap: int)
    requires gap > 0 && n <= p + gap
    ensures GapFill(p, n, gap) == []
  {
  }

  /** Every gap of `p + k * gap` with `k` intervals in between has `k - 1` ticks. */
  lemma {:induction false} GapFillCount(p: Timestamp, gap: int, k: nat)
    requires gap > 0 && k >= 1
    ensures |GapFill(p, p + k * gap, gap)| == k - 1
    decreases k
  {
    if k > 1 {
      assert p + gap + (k - 1) * gap == p + k * gap;
      GapFillCount(p + gap, gap, k - 1);
    }
  }

  /** Readings at 0:00 and 2:00 of a day with an interval of 15 minutes leave
      the seven ticks 0:15 to 1:45. */
  lemma TwoHourGap(t0: Timestamp)
    ensures GapFill(t0, t0 + 120, 15)
            == [t0 + 15, t0 + 30, t0 + 45, t0 + 60, t0 + 75, t0 + 90, t0 + 105]
  {
    assert GapFill(t0 + 105, t0 + 120, 15) == [];
    assert GapFill(t0 + 90, t0 + 120, 15) == [t0 + 105];
    assert GapFill(t0 + 75, t0 + 120, 15) == [t0 + 90, t0 + 105];
    assert GapFill(t0 + 60, t0 + 120, 15) == [t0 + 75, t0 + 90, t0 + 105];
    assert GapFill(t0 + 45, t0 + 120, 15) == [t0 + 60, t0 + 75, t0 + 90, t0 + 105];
    assert GapFill(t0 + 30, t0 + 120, 15) == [t0 + 45, t0 + 60, t0 + 75, t0 + 90, t0 + 105];
    assert GapFill(t0 + 15, t0 + 120, 15) == [t0 + 30, t0 + 45, t0 + 60, t0 + 75, t0 + 90, t0 + 105];
  }

  /** `x` lies strictly inside the pair of readings ending at index `i`, on
      the cadence of the earlier one. */
  predicate InGap(order: seq<Timestamp>, i: int, gap: int, x: Timestamp)
    requires gap > 0
  {
    1 <= i < |order| && order[i - 1] < x < order[i] && (x - order[i - 1]) % gap == 0
  }

  /** A tick is reported for a sensor exactly when it lies strictly inside
      some consecutive pair of its readings, on that pair's cadence. */
  lemma {:induction false} GapsMeaning(order: seq<Timestamp>, gap: int, x: Timestamp)
    requires gap > 0
    ensures x in Gaps(order, gap) <==> exists i :: InGap(order, i, gap, x)
    decreases |order|
  {
    if |order| >= 2 {
      var init := order[..|order| - 1];
      var n := |order| - 1;
      GapsMeaning(init, gap, x);
      GapFillMeaning(order[n - 1], order[n], gap, x);
      forall i | 1 <= i < n
        ensures InGap(order, i, gap, x) <==> InGap(init, i, gap, x)
      {
        assert order[i - 1] == init[i - 1] && order[i] == init[i];
      }
      if x in Gaps(init, gap) {
        var i :| InGap(init, i, gap, x);
        assert InGap(order, i, gap, x);
      } else if x in GapFill(order[n - 1], order[n], gap) {
        assert InGap(order, n, gap, x);
      } else {
        forall i ensures !InGap(order, i, gap, x) {
          if i == n {
            assert x !in GapFill(order[n - 1], order[n], gap);
          }
        }
      }
    }
  }

  /** The dataset test's sensor: readings at 0:00 and 2:00, interval 15. */
  lemma TwoReadingsTwoHoursApart(t0: Timestamp)
    ensures Gaps([t0, t0 + 120], 15) == [t0 + 15, t0 + 30, t0 + 45, t0 + 60, t0 + 75, t0 + 90, t0 + 105]
  {
    TwoHourGap(t0);
    assert [t0, t0 + 120][..1] == [t0];
  }

  class Dataset {
    var buoy: Buoy
    const startTimeStamp: Timestamp
    const endTimeStamp: Timestamp
    var sensors: seq<Sensor>

    predicate Valid()
      reads this
    {
      startTimeStamp < endTimeStamp
    }

    constructor (buoy: Buoy, startTimeStamp: Timestamp, endTimeStamp: Timestamp)
      requires startTimeStamp < endTimeStamp
      ensures Valid()
      ensures this.buoy == buoy && this.startTimeStamp == startTimeStamp && this.endTimeStamp == endTimeStamp
      ensures sensors == []
    {
      this.buoy := buoy;
      this.startTimeStamp := startTimeStamp;
      this.endTimeStamp := endTimeStamp;
      sensors := [];
    }

    /** `new Dataset(buoy, start, end)`: a null buoy, or a start that is not
        before the end, throws ArgumentException. */
    static method Create(buoy: Buoy?, startTimeStamp: Timestamp, endTimeStamp: Timestamp) returns (r: Result<Dataset>)
      ensures r.Err? <==> buoy == null || startTimeStamp >= endTimeStamp
      ensures r.Err? ==> r.error == Argument
      ensures r.Ok? ==> && fresh(r.value) && r.value.Valid() && r.value.buoy == buoy
                        && r.value.startTimeStamp == startTimeStamp && r.value.endTimeStamp == endTimeStamp
                        && r.value.sensors == []
    {
      if buoy == null {
        return Err(Argument);
      }
      if startTimeStamp >= endTimeStamp {
        return Err(Argument);
      }
      var d := new Dataset(buoy, startTimeStamp, endTimeStamp);
      return Ok(d);
    }

    /** The `Buoy` setter: null throws FormatException. */
    method SetBuoy(v: Buoy?) returns (o: Outcome)
      modifies this`buoy
      ensures v == null ==> o == Fail(Format) && buoy == old(buoy)
      ensures v != null ==> o == Done && buoy == v
    {
      if v == null {
        return Fail(Format);
      }
      buoy := v;
      return Done;
    }

    /** The `Sensors` setter replaces the list as given. */
    method SetSensors(v: seq<Sensor>)
      modifies this`sensors
      ensures sensors == v
    {
      sensors := v;
    }

    /** `AddSensor(sensor)`: null throws ArgumentException; otherwise the
        sensor goes to the end of the list. */
    method AddSensor(sensor: Sensor?) returns (o: Outcome)
      modifies this`sensors
      ensures sensor == null ==> o == Fail(Argument) && sensors == old(sensors)
      ensures sensor != null ==> o == Done && sensors == old(sensors) + [sensor]
    {
      if sensor == null {
        return Fail(Argument);
      }
      sensors := sensors + [sensor];
      return Done;
    }

    /** `DataPointCount`: how many whole 15-minute intervals the span holds. */
    function DataPointCount(): (r: nat)
      requires Valid()
      reads this
      ensures r * 15 <= endTimeStamp - startTimeStamp < (r + 1) * 15
    {
      (endTimeStamp - startTimeStamp) / 15
    }

    /** `GetMissingTimes(timeDiff)`: for each sensor, and each pair of
        consecutive readings `p`, `n` in stored order, a zero reading at
        every tick `p + timeDiff`, `p + 2 * timeDiff`, ... before `n`. A
        `timeDiff` of zero or less would never leave the inner loop. */
    method GetMissingTimes(timeDiff: int) returns (missing: seq<DataValue>)
      requires timeDiff > 0
      ensures missing == ZeroReadings(AllGaps(ReadingOrders(sensors), timeDiff))
    {
      ghost var orders := ReadingOrders(sensors);
      missing := [];
      var s := 0;
      while s < |sensors|
        invariant 0 <= s <= |sensors|
        invariant missing == ZeroReadings(AllGaps(orders[..s], timeDiff))
      {
        var order := sensors[s].CurrentValues().order;
        assert orders[..s + 1][..s] == orders[..s];
        var gaps := SensorGaps(order, timeDiff);
        ZeroReadingsConcat(AllGaps(orders[..s], timeDiff), Gaps(order, timeDiff));
        missing := missing + gaps;
        s := s + 1;
      }
      assert orders[..|sensors|] == orders;
    }
  }

  /** The body of `GetMissingTimes` for one sensor's timestamps. */
  method SensorGaps(order: seq<Timestamp>, timeDiff: int) returns (missing: seq<DataValue>)
    requires timeDiff > 0
    ensures missing == ZeroReadings(Gaps(order, timeDiff))
  {
    ghost var ticks: seq<Timestamp> := [];
    missing := [];
    var i := 1;
    while i < |order|
      invariant 1 <= i <= |order| || (|order| == 0 && i == 1)
      invariant ticks == (if |order| == 0 then [] else Gaps(order[..i], timeDiff))
      invariant missing == ZeroReadings(ticks)
    {
      GapsStep(order, i, timeDiff);
      ghost var before := ticks;
      if order[i - 1] + timeDiff != order[i] {
        var tmp := order[i - 1] + timeDiff;
        while tmp < order[i]
          invariant tmp > order[i - 1]
          invariant before + GapFill(order[i - 1], order[i], timeDiff)
                    == ticks + GapFill(tmp - timeDiff, order[i], timeDiff)
          invariant missing == ZeroReadings(ticks)
          decreases order[i] - tmp
        {
          ZeroReadingsConcat(ticks, [tmp]);
          missing := missing + [DataValue(tmp, 0.0)];
          ticks := ticks + [tmp];
          tmp := tmp + timeDiff;
        }
      }
      assert ticks == before + GapFill(order[i - 1], order[i], timeDiff);
      i := i + 1;
    }
    if |order| >= 2 {
      assert order[..|order|] == order;
    }
  }
}
