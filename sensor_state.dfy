/** SensorState: the readings a sensor held at one point in its edit
    history (IndiaTango/Models/SensorState.cs), and the two cadence walks
    over them: missing ticks and outliers. */
module SensorStates {
  import opened Common
  import opened ValueTable

  /** A version of a sensor's data: when it was produced, its readings, and why. */
  datatype SensorState = SensorState(editTimestamp: Timestamp, values: Values, reason: string)

  /** The three-argument constructor: a null value table is rejected.
      The shorter overloads pass an empty table and an empty reason. */
  function NewSensorState(editTimestamp: Timestamp, valueList: Option<Values>, reason: string): (r: Result<SensorState>)
    ensures r.Err? <==> valueList.None?
    ensures r.Err? ==> r.error == ArgumentNull
    ensures r.Ok? ==> r.value.editTimestamp == editTimestamp && r.value.reason == reason
                      && r.value.values == valueList.value
  {
    match valueList
    case None => Err(ArgumentNull)
    case Some(v) => Ok(SensorState(editTimestamp, v, reason))
  }

  /** `new SensorState(editTimestamp)`: no readings, no reason. */
  function EmptyState(editTimestamp: Timestamp): SensorState
  {
    SensorState(editTimestamp, Empty, "")
  }

  /** `Clone`: a separate copy of the readings (same keys, same order, same
      values), stamped with the clock reading `now`, with the reason reset. */
  function Clone(s: SensorState, now: Timestamp): (r: SensorState)
    ensures r.values.entries == s.values.entries && r.values.order == s.values.order
    ensures r.editTimestamp == now && r.reason == ""
  {
    SensorState(now, Table(s.values.order, s.values.entries), "")
  }

  lemma SubmapOfSameSize(a: map<Timestamp, Reading>, b: map<Timestamp, Reading>)
    requires a.Keys <= b.Keys && |a| == |b|
    requires forall k :: k in a ==> a[k] == b[k]
    ensures a == b
  {
    assert |a.Keys| == |a| && |b.Keys| == |b|;
    assert |b.Keys - a.Keys| == |b.Keys| - |a.Keys| == 0;
    assert b.Keys - a.Keys == {};
    assert a.Keys == b.Keys;
    assert forall k :: k in b ==> k in a && a[k] == b[k];
  }

  /** Position `i` is where `Equals` stops with a KeyNotFoundException: the
      key there is absent from the other table, and every earlier key was
      present there with the same reading. */
  ghost predicate ThrowsAt(a: Values, b: Values, i: int)
  {
    && 0 <= i < |a.order|
    && a.order[i] !in b.entries
    && forall j :: 0 <= j < i ==> a.order[j] in b.entries && b.entries[a.order[j]] == a.entries[a.order[j]]
  }

  /** `Equals(object)`. `other` is None when the argument is null or not a
      SensorState. The loop walks this state's readings in order and indexes
      the other table with each key, so a key missing there throws. */
  method StateEquals(s: SensorState, other: Option<SensorState>) returns (r: Result<bool>)
    ensures other.None? ==> r == Ok(false)
    ensures other.Some? && (other.value.editTimestamp != s.editTimestamp
                            || |other.value.values.entries| != |s.values.entries|)
            ==> r == Ok(false)
    ensures r == Ok(true) <==> other.Some? && other.value.editTimestamp == s.editTimestamp
                                && other.value.values.entries == s.values.entries
    ensures r.Err? <==> other.Some? && other.value.editTimestamp == s.editTimestamp
                        && |other.value.values.entries| == |s.values.entries|
                        && exists i :: ThrowsAt(s.values, other.value.values, i)
    ensures r.Err? ==> r.error == KeyNotFound
  {
    if other.None? {
      return Ok(false);
    }
    var o := other.value;
    if o.editTimestamp != s.editTimestamp {
      return Ok(false);
    }
    if |o.values.entries| != |s.values.entries| {
      return Ok(false);
    }
    var a, b := s.values, o.values;
    var i := 0;
    while i < |a.order|
      invariant 0 <= i <= |a.order|
      invariant forall j :: 0 <= j < i ==> a.order[j] in b.entries && b.entries[a.order[j]] == a.entries[a.order[j]]
    {
      var k := a.order[i];
      if k !in b.entries {
        assert ThrowsAt(a, b, i);
        assert a.order[i] in a.entries;
        return Err(KeyNotFound);
      }
      if b.entries[k] != a.entries[k] {
        assert k in a.entries;
        NoThrowBeforeMismatch(a, b, i);
        return Ok(false);
      }
      i := i + 1;
    }
    forall k | k in a.entries
      ensures k in b.entries && a.entries[k] == b.entries[k]
    {
      var p := KeyPosition(a, k);
    }
    SubmapOfSameSize(a.entries, b.entries);
    forall i | 0 <= i < |a.order| ensures !ThrowsAt(a, b, i) {
    }
    return Ok(true);
  }

  lemma NoThrowBeforeMismatch(a: Values, b: Values, i: nat)
    requires i < |a.order| && a.order[i] in b.entries && a.order[i] in a.entries
    requires b.entries[a.order[i]] != a.entries[a.order[i]]
    requires forall j :: 0 <= j < i ==> a.order[j] in b.entries && b.entries[a.order[j]] == a.entries[a.order[j]]
    ensures forall p :: !ThrowsAt(a, b, p)
    ensures a.entries != b.entries
  {
    forall p ensures !ThrowsAt(a, b, p) {
      if 0 <= p < |a.order| && p > i {
        assert a.order[i] in b.entries && b.entries[a.order[i]] != a.entries[a.order[i]];
      }
    }
  }

  // ----- the cadence -----------------------------------------------------

  /** `x` is one of the ticks `from`, `from + gap`, `from + 2 * gap`, ... */
  predicate OnCadence(x: Timestamp, from: Timestamp, gap: int)
    requires gap > 0
  {
    x >= from && (x - from) % gap == 0
  }

  lemma CadenceStep(x: Timestamp, from: Timestamp, gap: int)
    requires gap > 0
    ensures OnCadence(x, from, gap) <==> x == from || OnCadence(x, from + gap, gap)
  {
    var d := x - from;
    ModShift(d - gap, gap);
    if d > 0 && d % gap == 0 {
      MultipleAtLeast(d, gap);
    }
  }

  // ----- GetMissingTimes ---------------------------------------------------

  /** The ticks from `time` up to `end` inclusive, stepping by `gap`, whose
      timestamp is not a key of `values`, in walking order. */
  function MissingTicks(values: Values, time: Timestamp, end: Timestamp, gap: int): seq<Timestamp>
    requires gap > 0
    decreases end - time
  {
    if time > end then []
    else (if time in values.entries then [] else [time]) + MissingTicks(values, time + gap, end, gap)
  }

  lemma {:induction false} MissingTicksExact(values: Values, time: Timestamp, end: Timestamp, gap: int, x: Timestamp)
    requires gap > 0
    ensures x in MissingTicks(values, time, end, gap)
            <==> OnCadence(x, time, gap) && x <= end && x !in values.entries
    decreases end - time
  {
    CadenceStep(x, time, gap);
    if time <= end {
      MissingTicksExact(values, time + gap, end, gap, x);
    }
  }

  lemma {:induction false} MissingTicksAscending(values: Values, time: Timestamp, end: Timestamp, gap: int)
    requires gap > 0
    ensures StrictlyAscending(MissingTicks(values, time, end, gap))
    ensures forall x :: x in MissingTicks(values, time, end, gap) ==> x >= time
    decreases end - time
  {
    if time <= end {
      MissingTicksAscending(values, time + gap, end, gap);
      if time !in values.entries {
        ConsAscending(time, MissingTicks(values, time + gap, end, gap));
      }
    }
  }

  /** `GetMissingTimes(timeGap, start, end)`. A gap of zero or less makes the
      source loop run forever (or until DateTime overflows), hence `gap > 0`. */
  method GetMissingTimes(s: SensorState, gap: int, start: Timestamp, end: Timestamp) returns (missing: seq<Timestamp>)
    requires gap > 0
    ensures missing == MissingTicks(s.values, start, end, gap)
  {
    missing := [];
    var time := start;
    while time <= end
      invariant missing + MissingTicks(s.values, time, end, gap) == MissingTicks(s.values, start, end, gap)
      decreases end - time
    {
      if time !in s.values.entries {
        missing := missing + [time];
      }
      time := time + gap;
    }
  }

  /** What `GetMissingTimes` promises: ascending, and exactly the ticks
      `start + k * gap <= end` that have no reading. */
  lemma MissingTimesMeaning(s: SensorState, gap: int, start: Timestamp, end: Timestamp)
    requires gap > 0
    ensures StrictlyAscending(MissingTicks(s.values, start, end, gap))
    ensures forall x :: x in MissingTicks(s.values, start, end, gap)
                        <==> OnCadence(x, start, gap) && x <= end && x !in s.values.entries
  {
    MissingTicksAscending(s.values, start, end, gap);
    forall x ensures x in MissingTicks(s.values, start, end, gap)
                     <==> OnCadence(x, start, gap) && x <= end && x !in s.values.entries {
      MissingTicksExact(s.values, start, end, gap, x);
    }
  }

  // ----- GetOutliers -------------------------------------------------------

  /** The value `prev` holds when the walk from `start` reaches `time`: the
      reading at the latest earlier tick that has one, or 0 if none has. */
  function PrevValue(values: Values, start: Timestamp, gap: int, time: Timestamp): Reading
    requires gap > 0
    decreases time - start
  {
    if time - gap < start then 0.0
    else if time - gap in values.entries then values.entries[time - gap]
    else PrevValue(values, start, gap, time - gap)
  }

  /** The outlier rule at one present tick: outside [lower, upper], or, at any
      tick but the first, a jump from `PrevValue` larger than `maxRate`. */
  predicate OutlierAt(values: Values, start: Timestamp, gap: int, time: Timestamp,
                      upper: Reading, lower: Reading, maxRate: Reading)
    requires gap > 0
  {
    && time in values.entries
    && var v := values.entries[time];
       v < lower || v > upper || (time != start && Abs(v - PrevValue(values, start, gap, time)) > maxRate)
  }

  function OutliersFrom(values: Values, start: Timestamp, time: Timestamp, end: Timestamp, gap: int,
                        upper: Reading, lower: Reading, maxRate: Reading): seq<Timestamp>
    requires gap > 0
    decreases end - time
  {
    if time > end then []
    else (if OutlierAt(values, start, gap, time, upper, lower, maxRate) then [time] else [])
         + OutliersFrom(values, start, time + gap, end, gap, upper, lower, maxRate)
  }

  /** `GetOutliers(timeGap, start, end, upperLimit, lowerLimit, maxRateChange)`. */
  method GetOutliers(s: SensorState, gap: int, start: Timestamp, end: Timestamp,
                     upper: Reading, lower: Reading, maxRate: Reading) returns (outliers: seq<Timestamp>)
    requires gap > 0
    ensures outliers == OutliersFrom(s.values, start, start, end, gap, upper, lower, maxRate)
  {
    outliers := [];
    var prev := 0.0;
    var time := start;
    while time <= end
      invariant time >= start
      invariant prev == PrevValue(s.values, start, gap, time)
      invariant outliers + OutliersFrom(s.values, start, time, end, gap, upper, lower, maxRate)
                == OutliersFrom(s.values, start, start, end, gap, upper, lower, maxRate)
      decreases end - time
    {
      if time in s.values.entries {
        var value := s.values.entries[time];
        if value < lower || value > upper {
          outliers := outliers + [time];
        } else if time != start && Abs(value - prev) > maxRate {
          outliers := outliers + [time];
        }
        prev := value;
      }
      time := time + gap;
    }
  }

  lemma {:induction false} OutliersExact(values: Values, start: Timestamp, time: Timestamp, end: Timestamp, gap: int,
                                         upper: Reading, lower: Reading, maxRate: Reading, x: Timestamp)
    requires gap > 0
    ensures x in OutliersFrom(values, start, time, end, gap, upper, lower, maxRate)
            <==> OnCadence(x, time, gap) && x <= end && OutlierAt(values, start, gap, x, upper, lower, maxRate)
    decreases end - time
  {
    CadenceStep(x, time, gap);
    if time <= end {
      OutliersExact(values, start, time + gap, end, gap, upper, lower, maxRate, x);
    }
  }

  lemma {:induction false} OutliersAscending(values: Values, start: Timestamp, time: Timestamp, end: Timestamp, gap: int,
                                             upper: Reading, lower: Reading, maxRate: Reading)
    requires gap > 0
    ensures StrictlyAscending(OutliersFrom(values, start, time, end, gap, upper, lower, maxRate))
    ensures forall x :: x in OutliersFrom(values, start, time, end, gap, upper, lower, maxRate) ==> x >= time
    decreases end - time
  {
    if time <= end {
      OutliersAscending(values, start, time + gap, end, gap, upper, lower, maxRate);
      if OutlierAt(values, start, gap, time, upper, lower, maxRate) {
        ConsAscending(time, OutliersFrom(values, start, time + gap, end, gap, upper, lower, maxRate));
      }
    }
  }

  /** What `GetOutliers` promises: ticks without a reading are never flagged,
      a present tick outside the limits always is, a tick within the limits
      (other than `start`) is flagged exactly when it jumps by more than
      `maxRate` from `PrevValue`, and every tick is flagged at most once. */
  lemma OutliersMeaning(s: SensorState, gap: int, start: Timestamp, end: Timestamp,
                        upper: Reading, lower: Reading, maxRate: Reading, x: Timestamp)
    requires gap > 0
    ensures StrictlyAscending(OutliersFrom(s.values, start, start, end, gap, upper, lower, maxRate))
    ensures x !in s.values.entries ==> x !in OutliersFrom(s.values, start, start, end, gap, upper, lower, maxRate)
    ensures OnCadence(x, start, gap) && x <= end && x in s.values.entries
            && (s.values.entries[x] < lower || s.values.entries[x] > upper)
            ==> x in OutliersFrom(s.values, start, start, end, gap, upper, lower, maxRate)
    ensures OnCadence(x, start, gap) && x <= end && x != start && x in s.values.entries
            && lower <= s.values.entries[x] <= upper
            ==> (x in OutliersFrom(s.values, start, start, end, gap, upper, lower, maxRate)
                 <==> Abs(s.values.entries[x] - PrevValue(s.values, start, gap, x)) > maxRate)
  {
    OutliersAscending(s.values, start, start, end, gap, upper, lower, maxRate);
    OutliersExact(s.values, start, start, end, gap, upper, lower, maxRate, x);
  }

  /** `PrevValue` is what its name says: 0 when no earlier tick has a reading,
      otherwise the reading at an earlier tick `p` with nothing in between. */
  lemma {:induction false} PrevValueIsLatest(values: Values, start: Timestamp, gap: int, time: Timestamp)
    requires gap > 0 && OnCadence(time, start, gap)
    ensures (forall y :: OnCadence(y, start, gap) && y < time ==> y !in values.entries)
            ==> PrevValue(values, start, gap, time) == 0.0
    ensures (exists y :: OnCadence(y, start, gap) && y < time && y in values.entries)
            ==> exists p :: OnCadence(p, start, gap) && p < time && p in values.entries
                            && PrevValue(values, start, gap, time) == values.entries[p]
                            && forall y :: OnCadence(y, start, gap) && p < y < time ==> y !in values.entries
    decreases time - start
  {
    if time - gap >= start {
      var q := time - gap;
      CadenceOneBack(time, start, gap);
      forall y | OnCadence(y, start, gap) && q < y ensures y >= time {
        CadenceGapAtLeast(y, q, gap, start);
      }
      if q !in values.entries {
        PrevValueIsLatest(values, start, gap, q);
        if exists y :: OnCadence(y, start, gap) && y < time && y in values.entries {
          var y :| OnCadence(y, start, gap) && y < time && y in values.entries;
          assert y < q;
        }
      }
    } else {
      CadenceBelowGap(time, start, gap);
    }
  }

  /** The only tick of a cadence below `from + gap` is `from` itself. */
  lemma CadenceBelowGap(x: Timestamp, from: Timestamp, gap: int)
    requires gap > 0 && OnCadence(x, from, gap) && x < from + gap
    ensures x == from
  {
    if x > from {
      MultipleAtLeast(x - from, gap);
    }
  }

  lemma CadenceOneBack(time: Timestamp, start: Timestamp, gap: int)
    requires gap > 0 && OnCadence(time, start, gap) && time > start
    ensures OnCadence(time - gap, start, gap)
  {
    CadenceStep(time, start, gap);
  }

  /** Two ticks of one cadence are at least `gap` apart. */
  lemma CadenceGapAtLeast(y: Timestamp, q: Timestamp, gap: int, start: Timestamp)
    requires gap > 0 && OnCadence(y, start, gap) && OnCadence(q, start, gap) && q < y
    ensures y >= q + gap
  {
    ModDifference(y - start, q - start, gap);
    MultipleAtLeast(y - q, gap);
  }

  /** The readings {t0: 100, t0+15: 100, t0+30: 100, t0+45: 100} with limits
      [0, 200] and a maximum rate of change of 5 give no outliers. */
  lemma FlatSeriesHasNoOutliers(t0: Timestamp)
    ensures var values: Values := Table([t0, t0 + 15, t0 + 30, t0 + 45],
                                        map[t0 := 100.0, t0 + 15 := 100.0, t0 + 30 := 100.0, t0 + 45 := 100.0]);
            OutliersFrom(values, t0, t0, t0 + 45, 15, 200.0, 0.0, 5.0) == []
  {
    var values: Values := Table([t0, t0 + 15, t0 + 30, t0 + 45],
                                map[t0 := 100.0, t0 + 15 := 100.0, t0 + 30 := 100.0, t0 + 45 := 100.0]);
    assert PrevValue(values, t0, 15, t0 + 15) == values.entries[t0] == 100.0;
    assert PrevValue(values, t0, 15, t0 + 30) == values.entries[t0 + 15] == 100.0;
    assert PrevValue(values, t0, 15, t0 + 45) == values.entries[t0 + 30] == 100.0;
    assert OutliersFrom(values, t0, t0 + 60, t0 + 45, 15, 200.0, 0.0, 5.0) == [];
    assert OutliersFrom(values, t0, t0 + 45, t0 + 45, 15, 200.0, 0.0, 5.0) == [];
    assert OutliersFrom(values, t0, t0 + 30, t0 + 45, 15, 200.0, 0.0, 5.0) == [];
    assert OutliersFrom(values, t0, t0 + 15, t0 + 45, 15, 200.0, 0.0, 5.0) == [];
  }

  /** The same readings with the third changed to 300 flag exactly that tick,
      by the upper-limit rule; the fourth returns to 100 and is flagged by the
      rate rule, since the walk compares it with the 300 before it. */
  lemma SpikeIsFlagged(t0: Timestamp)
    ensures var values: Values := Table([t0, t0 + 15, t0 + 30, t0 + 45],
                                        map[t0 := 100.0, t0 + 15 := 100.0, t0 + 30 := 300.0, t0 + 45 := 100.0]);
            OutliersFrom(values, t0, t0, t0 + 45, 15, 200.0, 0.0, 5.0) == [t0 + 30, t0 + 45]
  {
    var values: Values := Table([t0, t0 + 15, t0 + 30, t0 + 45],
                                map[t0 := 100.0, t0 + 15 := 100.0, t0 + 30 := 300.0, t0 + 45 := 100.0]);
    assert PrevValue(values, t0, 15, t0 + 15) == values.entries[t0] == 100.0;
    assert PrevValue(values, t0, 15, t0 + 30) == values.entries[t0 + 15] == 100.0;
    assert PrevValue(values, t0, 15, t0 + 45) == values.entries[t0 + 30] == 300.0;
    assert OutliersFrom(values, t0, t0 + 60, t0 + 45, 15, 200.0, 0.0, 5.0) == [];
    assert OutliersFrom(values, t0, t0 + 45, t0 + 45, 15, 200.0, 0.0, 5.0) == [t0 + 45];
    assert OutliersFrom(values, t0, t0 + 30, t0 + 45, 15, 200.0, 0.0, 5.0) == [t0 + 30, t0 + 45];
    assert OutliersFrom(values, t0, t0 + 15, t0 + 45, 15, 200.0, 0.0, 5.0) == [t0 + 30, t0 + 45];
  }
}
