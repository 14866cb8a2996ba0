/** The two detection methods over a sensor's current readings:
    IndiaTango/Models/MissingValuesDetector.cs and MinMaxDetector.cs. */
module Detectors {
  import opened Common
  import opened ValueTable
  import opened SensorStates
  import opened Sensors
  import opened Datasets

  /** Which detector flagged a value: the missing-values detector itself, or
      one of the two child detectors of the limits detector. */
  datatype DetectorTag = MissingValues | BelowMin | AboveMax

  /** `new ErroneousValue(timeStamp, detector, sensor)`. */
  datatype ErroneousValue = ErroneousValue(timeStamp: Timestamp, detector: DetectorTag, sensor: Sensor)

  /** Each tick, flagged by `tag` on `sensor`. */
  function Flagged(ticks: seq<Timestamp>, tag: DetectorTag, sensor: Sensor): (r: seq<ErroneousValue>)
    ensures |r| == |ticks|
    ensures forall k :: 0 <= k < |r| ==> r[k] == ErroneousValue(ticks[k], tag, sensor)
  {
    seq(|ticks|, k requires 0 <= k < |ticks| => ErroneousValue(ticks[k], tag, sensor))
  }

  lemma FlaggedConcat(a: seq<Timestamp>, b: seq<Timestamp>, tag: DetectorTag, sensor: Sensor)
    ensures Flagged(a + b, tag, sensor) == Flagged(a, tag, sensor) + Flagged(b, tag, sensor)
  {
  }

  // ----- Missing values -----------------------------------------------------

  class MissingValuesDetector {
    const name: string := "Missing Values"
    const abbreviation: string := "MV"
    /** It has no settings grid, nothing to graph, and no child detectors. */
    const hasSettings: bool := false
    const hasGraphableSeries: bool := false
    const children: seq<DetectorTag> := []
    var isEnabled: bool

    constructor ()
      ensures !isEnabled
    {
      isEnabled := false;
    }

    /** `GetDetectedValues(sensor)`: walks the owning dataset's span from its
        start to its end inclusive, `dataInterval` minutes at a time, and
        flags each tick that has no current reading. A sensor without an
        owner dereferences null. */
    method GetDetectedValues(sensor: Sensor, owner: Dataset?, dataInterval: int) returns (r: Result<seq<ErroneousValue>>)
      requires owner != null ==> dataInterval > 0
      ensures owner == null ==> r == Err(NullReference)
      ensures owner != null ==>
                r == Ok(Flagged(MissingTicks(sensor.CurrentValues(), owner.startTimeStamp, owner.endTimeStamp, dataInterval),
                                MissingValues, sensor))
    {
      if owner == null {
        return Err(NullReference);
      }
      var start, end := owner.startTimeStamp, owner.endTimeStamp;
      ghost var ticks: seq<Timestamp> := [];
      var detected := [];
      var time := start;
      while time <= end
        invariant ticks + MissingTicks(sensor.CurrentValues(), time, end, dataInterval)
                  == MissingTicks(sensor.CurrentValues(), start, end, dataInterval)
        invariant detected == Flagged(ticks, MissingValues, sensor)
        decreases end - time
      {
        if !ContainsKey(sensor.CurrentValues(), time) {
          FlaggedConcat(ticks, [time], MissingValues, sensor);
          detected := detected + [ErroneousValue(time, MissingValues, sensor)];
          ticks := ticks + [time];
        }
        time := time + dataInterval;
      }
      assert MissingTicks(sensor.CurrentValues(), time, end, dataInterval) == [];
      assert ticks + [] == ticks;
      return Ok(detected);
    }

    /** `CheckIndividualValue(sensor, t)`: a value is erroneous here exactly
        when the current state has no reading at `t`. */
    function CheckIndividualValue(sensor: Sensor, t: Timestamp): (r: bool)
      reads sensor
      ensures r <==> t !in sensor.CurrentValues().entries
    {
      !ContainsKey(sensor.CurrentValues(), t)
    }
  }

  /** What the missing-values detector reports: each value is its own and the
      checked sensor's, and the timestamps are exactly the ticks of the
      owner's span without a reading, in ascending order. */
  lemma MissingValuesDetected(values: Values, start: Timestamp, end: Timestamp, interval: int, sensor: Sensor)
    requires interval > 0
    ensures var r := Flagged(MissingTicks(values, start, end, interval), MissingValues, sensor);
            && (forall k :: 0 <= k < |r| ==> r[k].detector == MissingValues && r[k].sensor == sensor)
            && (forall i, j :: 0 <= i < j < |r| ==> r[i].timeStamp < r[j].timeStamp)
            && (forall x :: (exists k :: 0 <= k < |r| && r[k].timeStamp == x)
                            <==> OnCadence(x, start, interval) && x <= end && x !in values.entries)
  {
    var ticks := MissingTicks(values, start, end, interval);
    var r := Flagged(ticks, MissingValues, sensor);
    MissingTicksAscending(values, start, end, interval);
    forall x ensures (exists k :: 0 <= k < |r| && r[k].timeStamp == x)
                     <==> OnCadence(x, start, interval) && x <= end && x !in values.entries {
      MissingTicksExact(values, start, end, interval, x);
      if x in ticks {
        var k :| 0 <= k < |ticks| && ticks[k] == x;
        assert r[k].timeStamp == x;
      }
    }
  }

  /** The missing-values check agrees with the walk: a tick of the span is
      checked as erroneous exactly when the walk reports it. */
  lemma MissingCheckAgreesWithWalk(values: Values, start: Timestamp, end: Timestamp, interval: int, x: Timestamp)
    requires interval > 0 && OnCadence(x, start, interval) && x <= end
    ensures x in MissingTicks(values, start, end, interval) <==> x !in values.entries
  {
    MissingTicksExact(values, start, end, interval, x);
  }

  // ----- Upper and lower limits ---------------------------------------------

  /** The limits rule for one reading: below the lower limit first, then
      above the upper limit; a reading within the limits is not flagged. */
  function Classify(v: Reading, lower: Reading, upper: Reading): (r: Option<DetectorTag>)
    ensures r == Some(BelowMin) <==> v < lower
    ensures r == Some(AboveMax) <==> lower <= v && v > upper
    ensures r == None <==> lower <= v <= upper
    ensures r != Some(MissingValues)
  {
    if v < lower then Some(BelowMin) else if v > upper then Some(AboveMax) else None
  }

  /** The flags raised for the readings at `keys`, in the order of `keys`. */
  function Violations(keys: seq<Timestamp>, entries: map<Timestamp, Reading>,
                      lower: Reading, upper: Reading, sensor: Sensor): seq<ErroneousValue>
    requires forall i :: 0 <= i < |keys| ==> keys[i] in entries
  {
    if keys == [] then []
    else
      var init := keys[..|keys| - 1];
      var t := keys[|keys| - 1];
      Violations(init, entries, lower, upper, sensor)
      + match Classify(entries[t], lower, upper)
        case None => []
        case Some(tag) => [ErroneousValue(t, tag, sensor)]
  }

  /** A value is reported exactly when its timestamp is a key whose reading
      breaks a limit, tagged with the limit it breaks, on the checked sensor. */
  lemma {:induction false} ViolationsExact(keys: seq<Timestamp>, entries: map<Timestamp, Reading>,
                                           lower: Reading, upper: Reading, sensor: Sensor, e: ErroneousValue)
    requires forall i :: 0 <= i < |keys| ==> keys[i] in entries
    ensures e in Violations(keys, entries, lower, upper, sensor)
            <==> e.timeStamp in keys && e.sensor == sensor
                 && Classify(entries[e.timeStamp], lower, upper) == Some(e.detector)
  {
    if keys != [] {
      var init := keys[..|keys| - 1];
      assert keys == init + [keys[|keys| - 1]];
      ViolationsExact(init, entries, lower, upper, sensor, e);
    }
  }

  /** Each timestamp is reported at most once, and in the order of the keys. */
  lemma {:induction false} ViolationsOnce(keys: seq<Timestamp>, entries: map<Timestamp, Reading>,
                                          lower: Reading, upper: Reading, sensor: Sensor)
    requires forall i :: 0 <= i < |keys| ==> keys[i] in entries
    requires NoDuplicates(keys)
    ensures var r := Violations(keys, entries, lower, upper, sensor);
            forall i, j :: 0 <= i < j < |r| ==> r[i].timeStamp != r[j].timeStamp
  {
    if keys != [] {
      var init := keys[..|keys| - 1];
      var t := keys[|keys| - 1];
      ViolationsOnce(init, entries, lower, upper, sensor);
      var before := Violations(init, entries, lower, upper, sensor);
      forall k | 0 <= k < |before| ensures before[k].timeStamp != t {
        ViolationsExact(init, entries, lower, upper, sensor, before[k]);
        assert before[k] in before;
      }
    }
  }

  class MinMaxDetector {
    const name: string := "Upper & Lower Limits"
    const abbreviation: string := "Limits"
    const hasSettings: bool := true
    /** The child detectors, above-max then below-min. */
    const children: seq<DetectorTag> := [AboveMax, BelowMin]
    var showMaxMinLines: bool
    var isEnabled: bool

    constructor ()
      ensures !showMaxMinLines && !isEnabled
    {
      showMaxMinLines := false;
      isEnabled := false;
    }

    /** `HasGraphableSeries`: the limit lines are graphed once the settings
        check box is ticked. */
    function HasGraphableSeries(): bool
      reads this
    {
      showMaxMinLines
    }

    /** The settings check box's Checked and Unchecked handlers. */
    method SetShowMaxMinLines(b: bool)
      modifies this`showMaxMinLines
      ensures HasGraphableSeries() == b
    {
      showMaxMinLines := b;
    }

    /** `GetDetectedValues(sensor)`: each current reading, in stored order,
        below the lower limit or (otherwise) above the upper limit. */
    method GetDetectedValues(sensor: Sensor) returns (detected: seq<ErroneousValue>)
      ensures detected == Violations(sensor.CurrentValues().order, sensor.CurrentValues().entries,
                                     sensor.lowerLimit, sensor.upperLimit, sensor)
    {
      var values := sensor.CurrentValues();
      detected := [];
      var i := 0;
      while i < |values.order|
        invariant 0 <= i <= |values.order|
        invariant detected == Violations(values.order[..i], values.entries, sensor.lowerLimit, sensor.upperLimit, sensor)
      {
        var t := values.order[i];
        assert values.order[..i + 1][..i] == values.order[..i];
        var v := values.entries[t];
        if v < sensor.lowerLimit {
          detected := detected + [ErroneousValue(t, BelowMin, sensor)];
        } else if v > sensor.upperLimit {
          detected := detected + [ErroneousValue(t, AboveMax, sensor)];
        }
        i := i + 1;
      }
      assert values.order[..i] == values.order;
    }

    /** `CheckIndividualValue(sensor, t)`: a present timestamp is never
        erroneous; for an absent one the source indexes the missing key and
        throws KeyNotFoundException. It never reports `true`. */
    function CheckIndividualValue(sensor: Sensor, t: Timestamp): (r: Result<bool>)
      reads sensor
      ensures r == Ok(false) <==> t in sensor.CurrentValues().entries
      ensures r.Err? <==> t !in sensor.CurrentValues().entries
      ensures r.Err? ==> r.error == KeyNotFound
    {
      if ContainsKey(sensor.CurrentValues(), t) then Ok(false) else Err(KeyNotFound)
    }
  }

  /** What the limits detector reports, with the sensor's own limits: every
      timestamp is a current key reported once with the right tag, readings
      within the limits are never reported, and every breach is. */
  lemma MinMaxDetected(sensor: Sensor, e: ErroneousValue)
    requires sensor.lowerLimit <= sensor.upperLimit
    ensures var values := sensor.CurrentValues();
            var r := Violations(values.order, values.entries, sensor.lowerLimit, sensor.upperLimit, sensor);
            && (forall i, j :: 0 <= i < j < |r| ==> r[i].timeStamp != r[j].timeStamp)
            && (e in r <==> && e.sensor == sensor && e.timeStamp in values.entries
                            && (e.detector == BelowMin ==> values.entries[e.timeStamp] < sensor.lowerLimit)
                            && (e.detector == AboveMax ==> values.entries[e.timeStamp] > sensor.upperLimit)
                            && e.detector != MissingValues)
  {
    var values := sensor.CurrentValues();
    ViolationsOnce(values.order, values.entries, sensor.lowerLimit, sensor.upperLimit, sensor);
    ViolationsExact(values.order, values.entries, sensor.lowerLimit, sensor.upperLimit, sensor, e);
  }
}
