/** The sensor (IndiaTango/Models/Sensor.cs): its validated properties,
    the limit setters that swap instead of rejecting, the undo and redo
    stacks of sensor states, the failure test over missing ticks, and the
    conventional-name guess. */
module Sensors {
  import opened Common
  import opened ValueTable
  import opened SensorStates
  import H = SensorHistory

  datatype SummaryType = Average | Sum

  /** A lower and an upper limit for readings. */
  datatype Limits = Limits(lower: Reading, upper: Reading)

  /** The `LowerLimit` setter. A value above the upper limit is not
      rejected: the old upper limit becomes the lower one and the value is
      handed to the `UpperLimit` setter. */
  function WithLower(l: Limits, v: Reading): (r: Limits)
    ensures r.lower <= r.upper
    ensures r.lower == v || r.upper == v
    ensures v <= l.upper ==> r.upper == l.upper
    ensures v > l.upper ==> r.lower == l.upper
    decreases if v > l.upper then 1 else 0
  {
    if v > l.upper then WithUpper(Limits(l.upper, l.upper), v)
    else Limits(v, l.upper)
  }

  /** The `UpperLimit` setter, the mirror image of `WithLower`. */
  function WithUpper(l: Limits, v: Reading): (r: Limits)
    ensures r.lower <= r.upper
    ensures r.lower == v || r.upper == v
    ensures v >= l.lower ==> r.lower == l.lower
    ensures v < l.lower ==> r.upper == l.lower
    decreases if v < l.lower then 1 else 0
  {
    if v < l.lower then WithLower(Limits(l.lower, l.lower), v)
    else Limits(l.lower, v)
  }

  /** The limits the constructor ends with. It assigns `UpperLimit` first,
      while the lower limit still holds its default 0, and `LowerLimit`
      second. A negative upper limit therefore trips the swap, and the
      sensor is left with an upper limit of 0 instead of the argument. */
  lemma ConstructorLimits(upper: Reading, lower: Reading)
    requires lower < upper
    ensures upper >= 0.0 ==> WithLower(WithUpper(Limits(0.0, 0.0), upper), lower) == Limits(lower, upper)
    ensures upper < 0.0 ==> WithLower(WithUpper(Limits(0.0, 0.0), upper), lower) == Limits(lower, 0.0)
  {
  }

  /** A setter given a value within the current limits only moves that limit. */
  lemma SettersWithinLimits(l: Limits, v: Reading)
    requires l.lower <= v <= l.upper
    ensures WithLower(l, v) == Limits(v, l.upper)
    ensures WithUpper(l, v) == Limits(l.lower, v)
  {
  }

  /** The checks of the full constructor, in its order. Null arguments are
      `None`; only the serial number, the calibration dates and the two
      stacks are checked for null. The name and unit are checked against "". */
  function ConstructorError(name: string, unit: Option<string>, serial: Option<string>,
                            calibrationDates: Option<seq<Timestamp>>,
                            undo: Option<seq<SensorState>>, redo: Option<seq<SensorState>>,
                            upper: Reading, lower: Reading, errorThreshold: int): (r: Option<Error>)
    ensures r == None <==> && name != "" && unit != Some("") && serial.Some?
                           && calibrationDates.Some? && undo.Some? && redo.Some?
                           && lower < upper && errorThreshold >= 1
    ensures (name == "" || unit == Some("") || serial.None? || calibrationDates.None?
             || undo.None? || redo.None?) ==> r == Some(ArgumentNull)
    ensures r == Some(ArgumentOutOfRange) <==> && name != "" && unit != Some("") && serial.Some?
                                               && calibrationDates.Some? && undo.Some? && redo.Some?
                                               && upper <= lower
    ensures r == Some(Argument) <==> && name != "" && unit != Some("") && serial.Some?
                                     && calibrationDates.Some? && undo.Some? && redo.Some?
                                     && lower < upper && errorThreshold < 1
  {
    if name == "" then Some(ArgumentNull)
    else if unit == Some("") then Some(ArgumentNull)
    else if serial.None? then Some(ArgumentNull)
    else if calibrationDates.None? then Some(ArgumentNull)
    else if undo.None? then Some(ArgumentNull)
    else if redo.None? then Some(ArgumentNull)
    else if upper <= lower then Some(ArgumentOutOfRange)
    else if errorThreshold < 1 then Some(Argument)
    else None
  }

  // ----- IsFailing -----------------------------------------------------------

  /** The two figures `IsFailing` reads from the dataset it is given. */
  datatype DataRate = DataRate(expectedCount: int, interval: int)

  /** The `k`-th tick after `base`. */
  function Tick(base: Timestamp, interval: int, k: int): Timestamp
  {
    base + k * interval
  }

  /** How many of the ticks just before tick `n` are absent, counting back
      from tick `n - 1` until a present one. */
  function RunLength(values: Values, base: Timestamp, interval: int, n: nat): nat
  {
    if n == 0 then 0
    else if Tick(base, interval, n - 1) in values.entries then 0
    else RunLength(values, base, interval, n - 1) + 1
  }

  /** `threshold` consecutive ticks ending with tick `j` are all absent. */
  predicate RunEndsAt(values: Values, base: Timestamp, interval: int, threshold: int, j: int)
  {
    && 0 <= j && threshold <= j + 1
    && forall k :: j + 1 - threshold <= k <= j ==> Tick(base, interval, k) !in values.entries
  }

  /** What `IsFailing` decides: among the first `count` ticks there are
      `threshold` consecutive absent ones. */
  predicate HasFailingRun(values: Values, base: Timestamp, interval: int, count: int, threshold: int)
  {
    exists j :: 0 <= j < count && RunEndsAt(values, base, interval, threshold, j)
  }

  lemma {:induction false} RunLengthMeaning(values: Values, base: Timestamp, interval: int, n: nat, m: nat)
    ensures RunLength(values, base, interval, n) >= m
            <==> m <= n && forall k :: n - m <= k < n ==> Tick(base, interval, k) !in values.entries
    decreases n
  {
    if n > 0 && m > 0 {
      RunLengthMeaning(values, base, interval, n - 1, m - 1);
    }
  }

  /** A run of length `threshold` ends at tick `j` exactly when the run
      counter reaches `threshold` there. */
  lemma RunEndsAtByLength(values: Values, base: Timestamp, interval: int, threshold: int, j: nat)
    requires threshold >= 1
    ensures RunEndsAt(values, base, interval, threshold, j) <==> RunLength(values, base, interval, j + 1) >= threshold
  {
    RunLengthMeaning(values, base, interval, j + 1, threshold);
  }

  // ----- GuessConventionalNameForSensor -------------------------------------

  predicate IsUpper(c: char) { 'A' <= c <= 'Z' }

  predicate IsLower(c: char) { 'a' <= c <= 'z' }

  /** A match of `([A-Z])[a-z]*`: a capital followed by small letters. */
  predicate IsWord(w: string)
  {
    |w| >= 1 && IsUpper(w[0]) && forall i :: 1 <= i < |w| ==> IsLower(w[i])
  }

  /** The length of the run of small letters that `s` starts with. */
  function LowerRun(s: string): (n: nat)
    ensures n <= |s|
    ensures forall i :: 0 <= i < n ==> IsLower(s[i])
    ensures n < |s| ==> !IsLower(s[n])
  {
    if |s| == 0 || !IsLower(s[0]) then 0 else 1 + LowerRun(s[1..])
  }

  /** `Regex.Matches(s)` for the pattern `(([A-Z])[a-z]*)`: scanning left to
      right, each capital starts a match that takes every small letter
      after it. */
  function Matches(s: string): (r: seq<string>)
    ensures forall k :: 0 <= k < |r| ==> IsWord(r[k])
    decreases |s|
  {
    if |s| == 0 then []
    else if IsUpper(s[0]) then
      var n := 1 + LowerRun(s[1..]);
      assert IsWord(s[..n]) by {
        forall i | 1 <= i < n ensures IsLower(s[..n][i]) {
          assert s[..n][i] == s[1..][i - 1];
        }
      }
      [s[..n]] + Matches(s[n..])
    else Matches(s[1..])
  }

  /** `GuessConventionalNameForSensor`: the first two capitalised words of
      the name, the only one if there is one, or the name itself. */
  function GuessConventionalName(name: string): (r: string)
    ensures (forall i :: 0 <= i < |name| ==> !IsUpper(name[i])) ==> r == name
    ensures (exists i :: 0 <= i < |name| && IsUpper(name[i])) ==>
              |r| > 0 && IsUpper(r[0]) && forall i :: 0 <= i < |r| ==> IsUpper(r[i]) || IsLower(r[i])
  {
    var mc := Matches(name);
    NoMatchesWithoutCapitals(name);
    if |mc| == 0 then name
    else if |mc| == 1 then mc[0]
    else
      var r := mc[0] + mc[1];
      assert forall i :: 0 <= i < |r| ==> r[i] == if i < |mc[0]| then mc[0][i] else mc[1][i - |mc[0]|];
      r
  }

  /** There is no match exactly when the name has no capital letter. */
  lemma {:induction false} NoMatchesWithoutCapitals(s: string)
    ensures Matches(s) == [] <==> forall i :: 0 <= i < |s| ==> !IsUpper(s[i])
    decreases |s|
  {
    if |s| > 0 && !IsUpper(s[0]) {
      NoMatchesWithoutCapitals(s[1..]);
      assert forall i :: 1 <= i < |s| ==> s[i] == s[1..][i - 1];
    }
  }

  /** A name without capitals is its own guess. */
  lemma GuessWithoutCapitals(s: string)
    requires forall i :: 0 <= i < |s| ==> !IsUpper(s[i])
    ensures GuessConventionalName(s) == s
  {
    NoMatchesWithoutCapitals(s);
  }

  /** A word followed by anything that does not continue it is matched first. */
  lemma FirstMatch(w: string, rest: string)
    requires IsWord(w)
    requires |rest| == 0 || !IsLower(rest[0])
    ensures Matches(w + rest) == [w] + Matches(rest)
  {
    var s := w + rest;
    assert s[1..] == w[1..] + rest;
    LowerRunOfWord(w[1..], rest);
    assert s[..|w|] == w;
    assert s[|w|..] == rest;
  }

  lemma {:induction false} LowerRunOfWord(tail: string, rest: string)
    requires forall i :: 0 <= i < |tail| ==> IsLower(tail[i])
    requires |rest| == 0 || !IsLower(rest[0])
    ensures LowerRun(tail + rest) == |tail|
    decreases |tail|
  {
    if |tail| > 0 {
      assert (tail + rest)[1..] == tail[1..] + rest;
      LowerRunOfWord(tail[1..], rest);
    } else {
      assert tail + rest == rest;
    }
  }

  /** Two leading capitalised words are the guess, whatever follows them. */
  lemma GuessTwoWords(w1: string, w2: string, rest: string)
    requires IsWord(w1) && IsWord(w2)
    requires |rest| == 0 || !IsLower(rest[0])
    ensures GuessConventionalName(w1 + w2 + rest) == w1 + w2
  {
    FirstMatch(w2, rest);
    assert !IsLower((w2 + rest)[0]);
    FirstMatch(w1, w2 + rest);
    assert w1 + w2 + rest == w1 + (w2 + rest);
  }

  /** Characters before the first capital are skipped: they start no match. */
  lemma {:induction false} MatchesSkipUncapitalised(u: string, s: string)
    requires forall i :: 0 <= i < |u| ==> !IsUpper(u[i])
    ensures Matches(u + s) == Matches(s)
    decreases |u|
  {
    if |u| > 0 {
      assert (u + s)[1..] == u[1..] + s;
      MatchesSkipUncapitalised(u[1..], s);
    } else {
      assert u + s == s;
    }
  }

  /** A name cut into words and the text between them: `gaps[0]`, `words[0]`,
      `gaps[1]`, `words[1]`, and so on, ending with the last gap. */
  function Interleave(gaps: seq<string>, words: seq<string>): string
    requires |gaps| == |words| + 1
    decreases |words|
  {
    if words == [] then gaps[0] else gaps[0] + words[0] + Interleave(gaps[1..], words[1..])
  }

  /** The gaps hold no capital, and none after a word goes on with a small letter. */
  predicate Separates(gaps: seq<string>)
  {
    && (forall k :: 0 <= k < |gaps| ==> forall i :: 0 <= i < |gaps[k]| ==> !IsUpper(gaps[k][i]))
    && (forall k :: 1 <= k < |gaps| ==> gaps[k] == [] || !IsLower(gaps[k][0]))
  }

  /** Every name cut this way matches exactly its words, in order. */
  lemma {:induction false} MatchesOfInterleave(gaps: seq<string>, words: seq<string>)
    requires |gaps| == |words| + 1 && Separates(gaps)
    requires forall k :: 0 <= k < |words| ==> IsWord(words[k])
    ensures Matches(Interleave(gaps, words)) == words
    decreases |words|
  {
    if words == [] {
      NoMatchesWithoutCapitals(gaps[0]);
    } else {
      var rest := Interleave(gaps[1..], words[1..]);
      assert Separates(gaps[1..]) by {
        assert forall k :: 0 <= k < |gaps| - 1 ==> gaps[1..][k] == gaps[k + 1];
      }
      MatchesOfInterleave(gaps[1..], words[1..]);
      assert |rest| == 0 || !IsLower(rest[0]) by {
        if words[1..] == [] {
          assert rest == gaps[1];
        } else if gaps[1] == [] {
          assert rest == words[1] + Interleave(gaps[2..], words[2..]) by {
            assert gaps[1..][0] == gaps[1] && gaps[1..][1..] == gaps[2..];
          }
          assert rest[0] == words[1][0];
        } else {
          assert rest[0] == gaps[1][0];
        }
      }
      FirstMatch(words[0], rest);
      MatchesSkipUncapitalised(gaps[0], words[0] + rest);
      assert gaps[0] + words[0] + rest == gaps[0] + (words[0] + rest);
    }
  }

  /** The guess for a name cut this way: its first two words, its only word,
      or the name itself when it has none. */
  lemma GuessOfInterleave(gaps: seq<string>, words: seq<string>)
    requires |gaps| == |words| + 1 && Separates(gaps)
    requires forall k :: 0 <= k < |words| ==> IsWord(words[k])
    ensures GuessConventionalName(Interleave(gaps, words))
            == if |words| == 0 then Interleave(gaps, words)
               else if |words| == 1 then words[0]
               else words[0] + words[1]
  {
    MatchesOfInterleave(gaps, words);
  }

  // ----- the sensor ----------------------------------------------------------

  class Sensor {
    var name: string
    var rawName: string
    var description: string
    var depth: Reading
    var unit: Option<string>
    var lowerLimit: Reading
    var upperLimit: Reading
    var maxRateOfChange: Reading
    var manufacturer: string
    var serialNumber: string
    var errorThreshold: int
    var calibrationDates: seq<Timestamp>
    var summaryType: SummaryType
    var undoStack: seq<SensorState>
    var redoStack: seq<SensorState>
    var rawData: Option<SensorState>

    /** What construction establishes and every setter keeps. */
    predicate Valid()
      reads this`name, this`unit, this`lowerLimit, this`upperLimit, this`errorThreshold
    {
      name != "" && unit != Some("") && lowerLimit <= upperLimit && errorThreshold >= 1
    }

    function CurrentLimits(): Limits
      reads this
    {
      Limits(lowerLimit, upperLimit)
    }

    function History(): H.History
      reads this
    {
      H.History(undoStack, redoStack)
    }

    /** The readings of `CurrentState`. A raw state not yet created is the
        empty state it will be created as. */
    function CurrentValues(): Values
      reads this
    {
      if |undoStack| > 0 then Last(undoStack).values
      else if rawData.Some? then rawData.value.values
      else Empty
    }

    /** The full constructor, once `ConstructorError` has found nothing. */
    constructor (name: string, description: string, upper: Reading, lower: Reading, unit: Option<string>,
                 maxRateOfChange: Reading, manufacturer: string, serial: string,
                 undo: seq<SensorState>, redo: seq<SensorState>, calibrationDates: seq<Timestamp>,
                 errorThreshold: int, summaryType: SummaryType)
      requires ConstructorError(name, unit, Some(serial), Some(calibrationDates), Some(undo), Some(redo),
                                upper, lower, errorThreshold) == None
      ensures Valid()
      ensures this.name == name && rawName == name && this.description == description && this.unit == unit
      ensures CurrentLimits() == WithLower(WithUpper(Limits(0.0, 0.0), upper), lower)
      ensures this.maxRateOfChange == maxRateOfChange && this.manufacturer == manufacturer
      ensures serialNumber == serial && this.calibrationDates == calibrationDates
      ensures this.errorThreshold == errorThreshold && this.summaryType == summaryType
      ensures History() == H.History(undo, redo) && rawData == None
    {
      this.name := name;
      rawName := name;
      this.description := description;
      depth := 0.0;
      lowerLimit := 0.0;
      upperLimit := 0.0;
      this.unit := unit;
      this.maxRateOfChange := maxRateOfChange;
      this.manufacturer := manufacturer;
      undoStack := undo;
      redoStack := redo;
      this.calibrationDates := calibrationDates;
      serialNumber := serial;
      this.errorThreshold := errorThreshold;
      this.summaryType := summaryType;
      rawData := None;
      new;
      SetUpperLimit(upper);
      SetLowerLimit(lower);
    }

    /** `new Sensor(...)` with every argument of the full constructor: the
        exception it throws, or the new sensor. */
    static method Create(name: string, description: string, upper: Reading, lower: Reading, unit: Option<string>,
                         maxRateOfChange: Reading, manufacturer: string, serial: Option<string>,
                         undo: Option<seq<SensorState>>, redo: Option<seq<SensorState>>,
                         calibrationDates: Option<seq<Timestamp>>, errorThreshold: int, summaryType: SummaryType)
      returns (r: Result<Sensor>)
      ensures r.Err? <==> ConstructorError(name, unit, serial, calibrationDates, undo, redo, upper, lower, errorThreshold).Some?
      ensures r.Err? ==> Some(r.error) == ConstructorError(name, unit, serial, calibrationDates, undo, redo, upper, lower, errorThreshold)
      ensures r.Ok? ==> && fresh(r.value) && r.value.Valid()
                        && r.value.name == name && r.value.unit == unit
                        && r.value.CurrentLimits() == WithLower(WithUpper(Limits(0.0, 0.0), upper), lower)
                        && r.value.errorThreshold == errorThreshold
                        && r.value.History() == H.History(undo.value, redo.value) && r.value.rawData == None
    {
      var e := ConstructorError(name, unit, serial, calibrationDates, undo, redo, upper, lower, errorThreshold);
      if e.Some? {
        return Err(e.value);
      }
      var s := new Sensor(name, description, upper, lower, unit, maxRateOfChange, manufacturer, serial.value,
                          undo.value, redo.value, calibrationDates.value, errorThreshold, summaryType);
      return Ok(s);
    }

    /** `new Sensor(name, unit)`: the short constructor, which fills in the
        defaults (limits 0 to 100, empty stacks and calibration dates, the
        application's default error threshold). */
    static method CreateNamed(name: string, unit: Option<string>, defaultErrorThreshold: int) returns (r: Result<Sensor>)
      ensures r.Err? <==> name == "" || unit == Some("") || defaultErrorThreshold < 1
      ensures r.Err? ==> r.error == (if name == "" || unit == Some("") then ArgumentNull else Argument)
      ensures r.Ok? ==> && fresh(r.value) && r.value.Valid()
                        && r.value.name == name && r.value.unit == unit
                        && r.value.CurrentLimits() == Limits(0.0, 100.0)
                        && r.value.History() == H.History([], []) && r.value.rawData == None
    {
      r := Create(name, "", 100.0, 0.0, unit, 0.0, "", Some(""), Some([]), Some([]), Some([]),
                  defaultErrorThreshold, Average);
    }

    // ----- setters -----------------------------------------------------------

    /** The `Name` setter ignores "". */
    method SetName(v: string)
      requires Valid()
      modifies this`name
      ensures Valid()
      ensures name == (if v == "" then old(name) else v)
    {
      if v != "" {
        name := v;
      }
    }

    /** The `Unit` setter ignores "" (and accepts null). */
    method SetUnit(v: Option<string>)
      requires Valid()
      modifies this`unit
      ensures Valid()
      ensures unit == (if v == Some("") then old(unit) else v)
    {
      if v != Some("") {
        unit := v;
      }
    }

    method SetLowerLimit(v: Reading)
      requires Valid()
      modifies this`lowerLimit, this`upperLimit
      ensures Valid()
      ensures CurrentLimits() == WithLower(old(CurrentLimits()), v)
      decreases if v > upperLimit then 1 else 0
    {
      if v > upperLimit {
        lowerLimit := upperLimit;
        SetUpperLimit(v);
      } else {
        lowerLimit := v;
      }
    }

    method SetUpperLimit(v: Reading)
      requires Valid()
      modifies this`lowerLimit, this`upperLimit
      ensures Valid()
      ensures CurrentLimits() == WithUpper(old(CurrentLimits()), v)
      decreases if v < lowerLimit then 1 else 0
    {
      if v < lowerLimit {
        upperLimit := lowerLimit;
        SetLowerLimit(v);
      } else {
        upperLimit := v;
      }
    }

    /** The `ErrorThreshold` setter: below 1 throws ArgumentException. */
    method SetErrorThreshold(v: int) returns (o: Outcome)
      requires Valid()
      modifies this`errorThreshold
      ensures Valid()
      ensures v < 1 ==> o == Fail(Argument) && errorThreshold == old(errorThreshold)
      ensures v >= 1 ==> o == Done && errorThreshold == v
    {
      if v < 1 {
        return Fail(Argument);
      }
      errorThreshold := v;
      return Done;
    }

    /** The `SerialNumber` setter: null throws ArgumentNullException. */
    method SetSerialNumber(v: Option<string>) returns (o: Outcome)
      requires Valid()
      modifies this`serialNumber
      ensures Valid()
      ensures v.None? ==> o == Fail(ArgumentNull) && serialNumber == old(serialNumber)
      ensures v.Some? ==> o == Done && serialNumber == v.value
    {
      if v.None? {
        return Fail(ArgumentNull);
      }
      serialNumber := v.value;
      return Done;
    }

    /** The `CalibrationDates` setter: null throws FormatException. */
    method SetCalibrationDates(v: Option<seq<Timestamp>>) returns (o: Outcome)
      requires Valid()
      modifies this`calibrationDates
      ensures Valid()
      ensures v.None? ==> o == Fail(Format) && calibrationDates == old(calibrationDates)
      ensures v.Some? ==> o == Done && calibrationDates == v.value
    {
      if v.None? {
        return Fail(Format);
      }
      calibrationDates := v.value;
      return Done;
    }

    // ----- states ------------------------------------------------------------

    /** `RawData`: created on first use as an empty state stamped with the
        clock reading `now`; never null afterwards. */
    method RawData(now: Timestamp) returns (s: SensorState)
      modifies this`rawData
      ensures Valid() == old(Valid())
      ensures rawData == Some(s)
      ensures old(rawData).Some? ==> rawData == old(rawData)
      ensures old(rawData).None? ==> s == EmptyState(now)
    {
      if rawData.None? {
        rawData := Some(EmptyState(now));
      }
      s := rawData.value;
    }

    /** `CurrentState`: the undo top, or the raw state when the undo stack is empty. */
    method CurrentState(now: Timestamp) returns (s: SensorState)
      modifies this`rawData
      ensures Valid() == old(Valid())
      ensures |undoStack| > 0 ==> s == Last(undoStack) && rawData == old(rawData)
      ensures |undoStack| == 0 ==> rawData == Some(s)
      ensures |undoStack| == 0 && old(rawData).Some? ==> rawData == old(rawData)
      ensures |undoStack| == 0 && old(rawData).None? ==> s == EmptyState(now)
      ensures s.values == CurrentValues() && CurrentValues() == old(CurrentValues())
    {
      if |undoStack| != 0 {
        s := Last(undoStack);
      } else {
        s := RawData(now);
      }
    }

    /** `AddState(newState)`. A full undo stack loses its bottom state: the
        stack is poured into a second one, the bottom popped, and the rest
        poured back. */
    method AddState(newState: SensorState)
      modifies this`undoStack, this`redoStack
      ensures Valid() == old(Valid())
      ensures History() == H.Commit(old(History()), newState)
    {
      if |undoStack| == H.UndoDepth {
        DropOldest();
      }
      undoStack := undoStack + [newState];
      redoStack := [];
    }

    /** The full-stack branch of `AddState`: the stack is poured into a
        second one, the bottom popped, and the rest poured back. */
    method DropOldest()
      requires |undoStack| > 0
      modifies this`undoStack
      ensures undoStack == old(undoStack)[1..]
    {
      ghost var u := undoStack;
      var reverse: seq<SensorState> := [];
      while |undoStack| > 0
        invariant undoStack + Reverse(reverse) == u
        decreases |undoStack|
      {
        ghost var below := undoStack[..|undoStack| - 1];
        assert below + Reverse(reverse + [Last(undoStack)]) == u by {
          ReverseAppend(reverse, Last(undoStack));
          assert below + [Last(undoStack)] == undoStack;
        }
        reverse := reverse + [Last(undoStack)];
        undoStack := undoStack[..|undoStack| - 1];
      }
      var bottom := Last(reverse);
      ghost var full := reverse;
      reverse := reverse[..|reverse| - 1];
      assert u[1..] == Reverse(reverse) by {
        assert full == reverse + [bottom];
        PopReversed(reverse, bottom);
        assert u == [] + Reverse(full);
      }
      while |reverse| > 0
        invariant undoStack + Reverse(reverse) == u[1..]
        decreases |reverse|
      {
        var top := Last(reverse);
        assert (undoStack + [top]) + Reverse(reverse[..|reverse| - 1]) == u[1..] by {
          PopReversed(reverse[..|reverse| - 1], top);
          assert reverse[..|reverse| - 1] + [top] == reverse;
        }
        undoStack := undoStack + [top];
        reverse := reverse[..|reverse| - 1];
      }
      assert undoStack == u[1..];
    }

    static lemma PopReversed(rest: seq<SensorState>, x: SensorState)
      ensures Reverse(rest + [x]) == [x] + Reverse(rest)
    {
      ReverseAppend(rest, x);
    }

    /** `Undo()`: moves the undo top onto the redo stack, or throws when there is none. */
    method Undo() returns (o: Outcome)
      modifies this`undoStack, this`redoStack
      ensures Valid() == old(Valid())
      ensures H.Undo(old(History())).Ok? ==> o == Done && History() == H.Undo(old(History())).value
      ensures H.Undo(old(History())).Err? ==> o == Fail(H.Undo(old(History())).error) && History() == old(History())
    {
      if |undoStack| < 1 {
        return Fail(InvalidOperation);
      }
      redoStack := redoStack + [Last(undoStack)];
      undoStack := undoStack[..|undoStack| - 1];
      return Done;
    }

    /** `Redo()`: moves the redo top onto the undo stack, or throws when there is none. */
    method Redo() returns (o: Outcome)
      modifies this`undoStack, this`redoStack
      ensures Valid() == old(Valid())
      ensures H.Redo(old(History())).Ok? ==> o == Done && History() == H.Redo(old(History())).value
      ensures H.Redo(old(History())).Err? ==> o == Fail(H.Redo(old(History())).error) && History() == old(History())
    {
      if |redoStack| == 0 {
        return Fail(InvalidOperation);
      }
      undoStack := undoStack + [Last(redoStack)];
      redoStack := redoStack[..|redoStack| - 1];
      return Done;
    }

    /** `RevertToRaw()`: pops every undo state onto the redo stack. */
    method RevertToRaw()
      modifies this`undoStack, this`redoStack
      ensures Valid() == old(Valid())
      ensures History() == H.RevertToRaw(old(History()))
    {
      ghost var d := undoStack;
      ghost var r := redoStack;
      assert d[..|d|] == d && d[|d|..] == [];
      while |undoStack| > 0
        invariant |undoStack| <= |d|
        invariant History() == H.History(d[..|undoStack|], r + Reverse(d[|undoStack|..]))
        decreases |undoStack|
      {
        H.UndoStep(d, r, |undoStack|);
        redoStack := redoStack + [Last(undoStack)];
        undoStack := undoStack[..|undoStack| - 1];
      }
      assert d[0..] == d;
      undoStack := [];
    }

    /** `Undo(DateTime)`: finds the topmost undo state stamped `t`, then calls
        `Undo()` until it is on top. */
    method UndoTo(t: Timestamp)
      modifies this`undoStack, this`redoStack
      ensures Valid() == old(Valid())
      ensures History() == H.UndoTo(old(History()), t)
    {
      var found := H.TopmostWith(undoStack, t);
      if found.Some? {
        ghost var d := undoStack;
        ghost var r := redoStack;
        var i := found.value;
        var target := undoStack[i];
        assert History() == H.History(d[..|d|], r + Reverse(d[|d|..])) by {
          assert d[..|d|] == d && d[|d|..] == [];
        }
        while |undoStack| > 0
          invariant i < |undoStack| <= |d|
          invariant undoStack == d[..|undoStack|] && redoStack == r + Reverse(d[|undoStack|..])
          decreases |undoStack|
        {
          ghost var k := |undoStack|;
          assert Last(undoStack) == d[k - 1];
          if Last(undoStack) != target {
            assert H.Undo(History()) == Ok(H.History(d[..k - 1], r + Reverse(d[k - 1..]))) by {
              H.UndoStep(d, r, k);
            }
            var _ := Undo();
            assert undoStack == d[..k - 1] && redoStack == r + Reverse(d[k - 1..]);
          } else {
            break;
          }
        }
        assert |undoStack| == i + 1;
      }
    }

    /** `Redo(DateTime)`: finds the topmost redo state stamped `t`, calls
        `Redo()` once, then again until that state is the undo top. */
    method RedoTo(t: Timestamp)
      modifies this`undoStack, this`redoStack
      ensures Valid() == old(Valid())
      ensures History() == H.RedoTo(old(History()), t)
    {
      var found := H.TopmostWith(redoStack, t);
      if found.Some? {
        ghost var u := undoStack;
        ghost var d := redoStack;
        var j := found.value;
        var target := redoStack[j];
        assert H.Redo(History()) == Ok(H.History(u + Reverse(d[|d| - 1..]), d[..|d| - 1]))
               && Last(u + Reverse(d[|d| - 1..])) == d[|d| - 1] by {
          assert d[..|d|] == d && d[|d|..] == [];
          assert u + Reverse(d[|d|..]) == u;
          H.RedoStep(u, d, |d|);
        }
        var _ := Redo();
        while |redoStack| > 0
          invariant j <= |redoStack| < |d|
          invariant undoStack == u + Reverse(d[|redoStack|..]) && redoStack == d[..|redoStack|]
          invariant Last(undoStack) == d[|redoStack|]
          decreases |redoStack|
        {
          ghost var k := |redoStack|;
          if Last(undoStack) != target {
            assert H.Redo(History()) == Ok(H.History(u + Reverse(d[k - 1..]), d[..k - 1]))
                   && Last(u + Reverse(d[k - 1..])) == d[k - 1] by {
              H.RedoStep(u, d, k);
            }
            var _ := Redo();
            assert undoStack == u + Reverse(d[k - 1..]) && redoStack == d[..k - 1];
          } else {
            break;
          }
        }
        assert |redoStack| == j;
      }
    }

    /** `CurrentState.Values.Add(t, v)` inside the reader's catch-all: a key
        already present throws and is swallowed, so only a new key is added. */
    method AddCurrentValue(t: Timestamp, v: Reading, now: Timestamp) returns (added: bool)
      modifies this`undoStack, this`rawData
      ensures Valid() == old(Valid())
      ensures added <==> t !in old(CurrentValues()).entries
      ensures added ==> CurrentValues() == Add(old(CurrentValues()), t, v).value
      ensures !added ==> CurrentValues() == old(CurrentValues())
      ensures |undoStack| == |old(undoStack)|
      ensures |undoStack| > 0 ==> undoStack[..|undoStack| - 1] == old(undoStack)[..|undoStack| - 1]
      ensures |undoStack| > 0 ==> Last(undoStack).editTimestamp == Last(old(undoStack)).editTimestamp
                                  && Last(undoStack).reason == Last(old(undoStack)).reason
      ensures |old(undoStack)| > 0 ==>
                undoStack == old(undoStack)[..|old(undoStack)| - 1] + [Last(old(undoStack)).(values := CurrentValues())]
                && rawData == old(rawData)
      ensures |old(undoStack)| == 0 ==>
                rawData == Some((if old(rawData).Some? then old(rawData).value else EmptyState(now)).(values := CurrentValues()))
    {
      var current := CurrentState(now);
      var r := Add(current.values, t, v);
      if r.Err? {
        return false;
      }
      var updated := current.(values := r.value);
      if |undoStack| > 0 {
        undoStack := undoStack[..|undoStack| - 1] + [updated];
      } else {
        rawData := Some(updated);
      }
      return true;
    }

    /** `IsFailing(dataset)`. `ignore` is the application setting that turns
        failure detection off; `dataset` supplies the expected number of
        points and the data interval, or is null. */
    method IsFailing(ignore: bool, dataset: Option<DataRate>, now: Timestamp) returns (r: Result<bool>)
      requires Valid()
      modifies this`rawData
      ensures ignore ==> r == Ok(false)
      ensures !ignore && dataset.None? ==> r == Err(NullReference)
      ensures !ignore && dataset.Some? ==>
                r.Ok? && (r.value <==> && |CurrentValues().order| > 0
                                       && HasFailingRun(CurrentValues(), CurrentValues().order[0],
                                                        dataset.value.interval, dataset.value.expectedCount,
                                                        errorThreshold))
      ensures CurrentValues() == old(CurrentValues()) && History() == old(History())
    {
      if ignore {
        return Ok(false);
      }
      if dataset.None? {
        return Err(NullReference);
      }
      var state := CurrentState(now);
      var values := state.values;
      EmptyIffNoOrder(values);
      if |values.entries| == 0 {
        return Ok(false);
      }
      var baseTime := values.order[0];
      var count, interval := dataset.value.expectedCount, dataset.value.interval;
      var incidence := 0;
      var time := 0;
      var i := 0;
      while i < count
        invariant 0 <= i && (i <= count || count <= 0)
        invariant time == i * interval
        invariant incidence == RunLength(values, baseTime, interval, i) && incidence < errorThreshold
        invariant forall j :: 0 <= j < i ==> !RunEndsAt(values, baseTime, interval, errorThreshold, j)
        invariant values == CurrentValues() && History() == old(History()) && CurrentValues() == old(CurrentValues())
        decreases count - i
      {
        var key := baseTime + time;
        assert key == Tick(baseTime, interval, i);
        if key in values.entries {
          incidence := 0;
        } else {
          incidence := incidence + 1;
        }
        RunEndsAtByLength(values, baseTime, interval, errorThreshold, i);
        if incidence == errorThreshold {
          assert RunEndsAt(values, baseTime, interval, errorThreshold, i);
          return Ok(true);
        }
        time := time + interval;
        i := i + 1;
      }
      return Ok(false);
    }
  }
}
