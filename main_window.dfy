/** The rules inside the main window's callbacks
    (IndiaTango/ViewModels/MainWindowViewModel.cs): the graphed time range,
    the guards on the start and end pickers, site names taken from saved
    file paths, the name of a new site, and merging imported sensors into
    the current dataset. Dialogs become parameters: the user's answers are
    passed in, and so are the clock and the set of saved site files. */
module MainWindow {
  import opened Common
  import opened ValueTable
  import opened SensorStates
  import opened Sensors
  import opened Datasets
  import H = SensorHistory

  // ----- graphed end points ------------------------------------------------

  /** The earliest first point of the non-empty series, or DateTime.MaxValue
      when every series is empty. */
  function EarliestFirst(series: seq<seq<Timestamp>>): (r: Timestamp)
    ensures r <= DateTimeMaxValue
    ensures forall i :: 0 <= i < |series| && series[i] != [] ==> r <= series[i][0]
    ensures r == DateTimeMaxValue || exists i :: 0 <= i < |series| && series[i] != [] && series[i][0] == r
  {
    if series == [] then DateTimeMaxValue
    else
      var init := series[..|series| - 1];
      var m := EarliestFirst(init);
      var s := series[|series| - 1];
      assert forall i :: 0 <= i < |init| ==> init[i] == series[i];
      if s != [] && s[0] < m then s[0] else m
  }

  /** The latest last point of the non-empty series, or DateTime.MinValue
      when every series is empty. */
  function LatestLast(series: seq<seq<Timestamp>>): (r: Timestamp)
    ensures r >= DateTimeMinValue
    ensures forall i :: 0 <= i < |series| && series[i] != [] ==> Last(series[i]) <= r
    ensures r == DateTimeMinValue || exists i :: 0 <= i < |series| && series[i] != [] && Last(series[i]) == r
  {
    if series == [] then DateTimeMinValue
    else
      var init := series[..|series| - 1];
      var m := LatestLast(init);
      var s := series[|series| - 1];
      assert forall i :: 0 <= i < |init| ==> init[i] == series[i];
      if s != [] && Last(s) > m then Last(s) else m
  }

  /** With nothing graphed the range is the whole DateTime range, and it
      then runs forward. */
  lemma NothingGraphed(series: seq<seq<Timestamp>>)
    requires forall i :: 0 <= i < |series| ==> series[i] == []
    ensures EarliestFirst(series) == DateTimeMaxValue && LatestLast(series) == DateTimeMinValue
    ensures EarliestFirst(series) > LatestLast(series)
  {
  }

  /** Every point lies in the range a DateTime can hold. */
  predicate InDateRange(series: seq<seq<Timestamp>>)
  {
    forall i, j :: 0 <= i < |series| && 0 <= j < |series[i]| ==> DateTimeMinValue <= series[i][j] <= DateTimeMaxValue
  }

  /** When every series runs forward in time and at least one has points,
      no swap is needed, and the range runs from a first point of some series
      to a last point of some series. */
  lemma ForwardSeriesEndPoints(series: seq<seq<Timestamp>>, k: nat)
    requires k < |series| && series[k] != []
    requires InDateRange(series)
    requires forall i :: 0 <= i < |series| && series[i] != [] ==> series[i][0] <= Last(series[i])
    ensures EarliestFirst(series) <= LatestLast(series)
    ensures exists i :: 0 <= i < |series| && series[i] != [] && series[i][0] == EarliestFirst(series)
    ensures exists i :: 0 <= i < |series| && series[i] != [] && Last(series[i]) == LatestLast(series)
  {
    var lo, hi := EarliestFirst(series), LatestLast(series);
    assert lo <= series[k][0] <= Last(series[k]) <= hi;
    if lo == DateTimeMaxValue {
      assert series[k][0] == lo;
    }
    if hi == DateTimeMinValue {
      assert Last(series[k]) == hi;
    }
  }

  // ----- the start and end pickers ---------------------------------------

  /** A picker's change: the value before and the value chosen. */
  datatype DateChange = DateChange(oldValue: Timestamp, newValue: Timestamp)

  /** `StartTimeChanged`: a new start is taken when it is before the end, or
      when the old start was the default DateTime; otherwise the old start stays. */
  function AcceptedStart(e: DateChange, end: Timestamp): (r: Timestamp)
    ensures r == e.newValue || r == e.oldValue
    ensures e.newValue < end ==> r == e.newValue
  {
    if e.oldValue == DateTimeMinValue || e.newValue < end then e.newValue else e.oldValue
  }

  /** `EndTimeChanged`: the same rule, mirrored. */
  function AcceptedEnd(e: DateChange, start: Timestamp): (r: Timestamp)
    ensures r == e.newValue || r == e.oldValue
    ensures e.newValue > start ==> r == e.newValue
  {
    if e.oldValue == DateTimeMinValue || e.newValue > start then e.newValue else e.oldValue
  }

  /** The guards keep the start before the end, except that a picker still on
      the default DateTime takes any value. */
  lemma GuardsKeepOrder(e: DateChange, start: Timestamp, end: Timestamp)
    ensures e.oldValue < end && e.oldValue != DateTimeMinValue ==> AcceptedStart(e, end) < end
    ensures e.oldValue > start && e.oldValue != DateTimeMinValue ==> AcceptedEnd(e, start) > start
    ensures e.oldValue == DateTimeMinValue ==> AcceptedStart(e, end) == e.newValue && AcceptedEnd(e, start) == e.newValue
    ensures e.newValue >= end && e.oldValue != DateTimeMinValue ==> AcceptedStart(e, end) == e.oldValue
    ensures e.newValue <= start && e.oldValue != DateTimeMinValue ==> AcceptedEnd(e, start) == e.oldValue
  {
  }

  // ----- site names ----------------------------------------------------------

  /** `string.LastIndexOf(c)`: the last position holding `c`, or -1. */
  function LastIndexOf(s: string, c: char): (r: int)
    ensures -1 <= r < |s|
    ensures r >= 0 ==> s[r] == c
    ensures forall i :: r < i < |s| ==> s[i] != c
  {
    if s == [] then -1
    else if s[|s| - 1] == c then |s| - 1
    else LastIndexOf(s[..|s| - 1], c)
  }

  /** A site name from a saved file path: what follows the last backslash,
      with its last three characters (the ".b3" extension) dropped. A part
      shorter than three characters makes `Substring` throw. */
  function SiteName(path: string): (r: Result<string>)
    ensures r.Err? <==> |path| - 1 - LastIndexOf(path, '\\') < 3
    ensures r.Err? ==> r.error == ArgumentOutOfRange
    ensures r.Ok? ==> '\\' !in r.value && |r.value| + 3 <= |path|
    ensures r.Ok? ==> path[|path| - 3 - |r.value|..|path| - 3] == r.value
    ensures r.Ok? ==> |r.value| + 3 == |path| || path[|path| - 4 - |r.value|] == '\\'
  {
    var start := LastIndexOf(path, '\\') + 1;
    var length := |path| - LastIndexOf(path, '\\') - 4;
    if length < 0 then Err(ArgumentOutOfRange)
    else
      var name := path[start..start + length];
      assert forall i :: 0 <= i < |name| ==> name[i] == path[start + i];
      Ok(name)
  }

  /** The file a site is saved to. */
  function SiteFileName(name: string): string
  {
    name + ".b3"
  }

  /** The site name of a saved file is the name it was saved under. */
  lemma SiteNameOfSavedFile(directory: string, name: string)
    requires '\\' !in name
    ensures SiteName(directory + "\\" + SiteFileName(name)) == Ok(name)
    ensures SiteName(SiteFileName(name)) == Ok(name)
  {
    var path := directory + "\\" + SiteFileName(name);
    assert path[|directory|] == '\\';
    assert forall i :: |directory| < i < |path| ==> path[i] != '\\' by {
      assert forall i :: |directory| < i < |path| ==> path[i] == SiteFileName(name)[i - |directory| - 1];
    }
    assert LastIndexOf(path, '\\') == |directory|;
    assert path[|directory| + 1..|path| - 3] == name;
    var bare := SiteFileName(name);
    assert forall i :: 0 <= i < |bare| ==> bare[i] != '\\';
    assert LastIndexOf(bare, '\\') == -1;
    assert bare[0..|bare| - 3] == name;
  }

  /** `SiteNames`: the site name of every saved file, in file order; one bad
      path makes the whole property throw. */
  function SiteNames(files: seq<string>): (r: Result<seq<string>>)
    ensures r.Ok? <==> forall i :: 0 <= i < |files| ==> SiteName(files[i]).Ok?
    ensures r.Err? ==> r.error == ArgumentOutOfRange
    ensures r.Ok? ==> |r.value| == |files| && forall i :: 0 <= i < |files| ==> SiteName(files[i]) == Ok(r.value[i])
  {
    if forall i :: 0 <= i < |files| ==> SiteName(files[i]).Ok? then
      Ok(seq(|files|, i requires 0 <= i < |files| => SiteName(files[i]).value))
    else Err(ArgumentOutOfRange)
  }

  /** `Array.IndexOf`: the first position holding `x`, or -1. */
  function IndexOf(s: seq<string>, x: string): (r: int)
    ensures -1 <= r < |s|
    ensures r == -1 <==> x !in s
    ensures r >= 0 ==> s[r] == x && forall j :: 0 <= j < r ==> s[j] != x
  {
    if s == [] then -1
    else if s[0] == x then 0
    else
      var k := IndexOf(s[1..], x);
      assert forall j :: 0 <= j < |s| - 1 ==> s[1..][j] == s[j + 1];
      if k == -1 then -1 else k + 1
  }

  // ----- naming a new site ----------------------------------------------------

  const NewSiteName: string := "New Site"

  /** "New Site" followed by a number. */
  function NumberedSite(x: nat): string
  {
    NewSiteName + NatToString(x)
  }

  lemma NumberedSiteFilesDistinct(a: nat, b: nat)
    requires a != b
    ensures SiteFileName(NumberedSite(a)) != SiteFileName(NumberedSite(b))
  {
    var fa, fb := SiteFileName(NumberedSite(a)), SiteFileName(NumberedSite(b));
    ParseNatToString(a);
    ParseNatToString(b);
    assert fa[|NewSiteName|..|fa| - 3] == NatToString(a);
    assert fb[|NewSiteName|..|fb| - 3] == NatToString(b);
  }

  lemma SubsetCard(a: set<string>, b: set<string>)
    requires a <= b
    ensures |a| <= |b|
  {
    assert b == a + (b - a);
    assert a * (b - a) == {};
  }

  // ----- the import merge ------------------------------------------------------

  /** The first `n` imported readings merged into a copy of the current ones:
      with `keepOld` an imported reading fills only a time the current
      readings lack; otherwise it overwrites. */
  function MergedUpTo(current: Values, incoming: Values, keepOld: bool, n: nat): Values
    requires n <= |incoming.order|
  {
    if n == 0 then current
    else
      var before := MergedUpTo(current, incoming, keepOld, n - 1);
      var k := incoming.order[n - 1];
      if !keepOld || !ContainsKey(before, k) then Put(before, k, incoming.entries[k]) else before
  }

  function Merged(current: Values, incoming: Values, keepOld: bool): Values
  {
    MergedUpTo(current, incoming, keepOld, |incoming.order|)
  }

  /** An imported reading at time `k` is written into the copy. */
  predicate Writes(current: Values, keepOld: bool, k: Timestamp)
  {
    !keepOld || k !in current.entries
  }

  /** Some of the first `n` imported readings is written into the copy. */
  predicate InsertsUpTo(current: Values, incoming: Values, keepOld: bool, n: nat)
    requires n <= |incoming.order|
  {
    exists j :: 0 <= j < n && Writes(current, keepOld, incoming.order[j])
  }

  /** One more imported reading inserts something exactly when it is written. */
  lemma InsertsUpToStep(current: Values, incoming: Values, keepOld: bool, n: nat)
    requires n < |incoming.order|
    ensures InsertsUpTo(current, incoming, keepOld, n + 1) <==>
            InsertsUpTo(current, incoming, keepOld, n) || Writes(current, keepOld, incoming.order[n])
  {
    if InsertsUpTo(current, incoming, keepOld, n + 1) && !Writes(current, keepOld, incoming.order[n]) {
      var j :| 0 <= j < n + 1 && Writes(current, keepOld, incoming.order[j]);
      assert j < n;
    }
  }

  predicate Inserts(current: Values, incoming: Values, keepOld: bool)
  {
    InsertsUpTo(current, incoming, keepOld, |incoming.order|)
  }

  /** The entries of `MergedUpTo` on plain maps: each time of `order` in turn
      receives its imported reading, unless `keepOld` and the time is already held. */
  function MergedEntries(cur: map<Timestamp, Reading>, inc: map<Timestamp, Reading>, order: seq<Timestamp>, keepOld: bool): map<Timestamp, Reading>
    requires forall i :: 0 <= i < |order| ==> order[i] in inc
    decreases |order|
  {
    if |order| == 0 then cur
    else
      var before := MergedEntries(cur, inc, order[..|order| - 1], keepOld);
      var k := order[|order| - 1];
      if !keepOld || k !in before then before[k := inc[k]] else before
  }

  /** The copy's readings after the first `n` imported ones are `MergedEntries` of their times. */
  lemma {:induction false} MergedUpToEntries(current: Values, incoming: Values, keepOld: bool, n: nat)
    requires n <= |incoming.order|
    ensures forall i :: 0 <= i < n ==> incoming.order[..n][i] in incoming.entries
    ensures MergedUpTo(current, incoming, keepOld, n).entries ==
              MergedEntries(current.entries, incoming.entries, incoming.order[..n], keepOld)
  {
    assert forall i :: 0 <= i < n ==> incoming.order[..n][i] == incoming.order[i];
    if n > 0 {
      MergedUpToEntries(current, incoming, keepOld, n - 1);
      assert incoming.order[..n][..n - 1] == incoming.order[..n - 1];
    }
  }

  /** What `MergedEntries` holds at one time `x`, for times without repeats. */
  lemma {:induction false} MergedEntriesAt(cur: map<Timestamp, Reading>, inc: map<Timestamp, Reading>, order: seq<Timestamp>, keepOld: bool, x: Timestamp)
    requires forall i :: 0 <= i < |order| ==> order[i] in inc
    requires NoDuplicates(order)
    ensures x in MergedEntries(cur, inc, order, keepOld) <==> x in cur || x in order
    ensures x in MergedEntries(cur, inc, order, keepOld) ==>
              MergedEntries(cur, inc, order, keepOld)[x] ==
                if x in order && (!keepOld || x !in cur) then inc[x] else cur[x]
    decreases |order|
  {
    if |order| > 0 {
      var p := order[..|order| - 1];
      var k := order[|order| - 1];
      assert order == p + [k];
      assert forall i :: 0 <= i < |p| ==> p[i] == order[i];
      assert k !in p;
      MergedEntriesAt(cur, inc, p, keepOld, x);
      MergedEntriesAt(cur, inc, p, keepOld, k);
    }
  }

  /** What the copy holds at one time `x` after the first `n` imported readings. */
  lemma MergedUpToAt(current: Values, incoming: Values, keepOld: bool, n: nat, x: Timestamp)
    requires n <= |incoming.order|
    ensures x in MergedUpTo(current, incoming, keepOld, n).entries <==>
            x in current.entries || x in incoming.order[..n]
    ensures x in MergedUpTo(current, incoming, keepOld, n).entries ==>
            MergedUpTo(current, incoming, keepOld, n).entries[x] ==
              if x in incoming.order[..n] && Writes(current, keepOld, x) then incoming.entries[x] else current.entries[x]
  {
    MergedUpToEntries(current, incoming, keepOld, n);
    assert NoDuplicates(incoming.order[..n]) by {
      assert forall i :: 0 <= i < n ==> incoming.order[..n][i] == incoming.order[i];
    }
    MergedEntriesAt(current.entries, incoming.entries, incoming.order[..n], keepOld, x);
  }

  lemma MergedUpToMeaning(current: Values, incoming: Values, keepOld: bool, n: nat)
    requires n <= |incoming.order|
    ensures forall x :: x in MergedUpTo(current, incoming, keepOld, n).entries <==>
                        x in current.entries || x in incoming.order[..n]
    ensures forall x :: x in MergedUpTo(current, incoming, keepOld, n).entries ==>
                        MergedUpTo(current, incoming, keepOld, n).entries[x] ==
                          if x in incoming.order[..n] && Writes(current, keepOld, x)
                          then incoming.entries[x] else current.entries[x]
  {
    forall x {
      MergedUpToAt(current, incoming, keepOld, n, x);
    }
  }

  /** Keeping old values: every current reading survives, and only the
      times it lacks are filled from the import. */
  lemma MergeKeepOld(current: Values, incoming: Values)
    ensures Merged(current, incoming, true).entries.Keys == current.entries.Keys + incoming.entries.Keys
    ensures forall k :: k in current.entries ==> Merged(current, incoming, true).entries[k] == current.entries[k]
    ensures forall k :: k in incoming.entries && k !in current.entries ==>
                        Merged(current, incoming, true).entries[k] == incoming.entries[k]
  {
    var m := Merged(current, incoming, true);
    MergedUpToMeaning(current, incoming, true, |incoming.order|);
    assert incoming.order[..|incoming.order|] == incoming.order;
    assert forall x :: x in incoming.order <==> x in incoming.entries;
    assert m.entries.Keys == current.entries.Keys + incoming.entries.Keys by {
      forall x ensures x in m.entries.Keys <==> x in current.entries.Keys + incoming.entries.Keys {
      }
    }
  }

  /** Keeping new values: every imported reading overwrites. */
  lemma MergeKeepNew(current: Values, incoming: Values)
    ensures Merged(current, incoming, false).entries.Keys == current.entries.Keys + incoming.entries.Keys
    ensures forall k :: k in incoming.entries ==> Merged(current, incoming, false).entries[k] == incoming.entries[k]
    ensures forall k :: k in current.entries && k !in incoming.entries ==>
                        Merged(current, incoming, false).entries[k] == current.entries[k]
  {
    var m := Merged(current, incoming, false);
    MergedUpToMeaning(current, incoming, false, |incoming.order|);
    assert incoming.order[..|incoming.order|] == incoming.order;
    assert forall x :: x in incoming.order <==> x in incoming.entries;
    assert m.entries.Keys == current.entries.Keys + incoming.entries.Keys by {
      forall x ensures x in m.entries.Keys <==> x in current.entries.Keys + incoming.entries.Keys {
      }
    }
  }

  /** Something is inserted exactly when the import has a time the current
      readings lack, or, keeping new values, when the import is not empty. */
  lemma InsertsMeaning(current: Values, incoming: Values, keepOld: bool)
    ensures keepOld ==> (Inserts(current, incoming, keepOld) <==> !(incoming.entries.Keys <= current.entries.Keys))
    ensures !keepOld ==> (Inserts(current, incoming, keepOld) <==> |incoming.entries| > 0)
  {
    EmptyIffNoOrder(incoming);
    if keepOld {
      if Inserts(current, incoming, keepOld) {
        var j :| 0 <= j < |incoming.order| && Writes(current, keepOld, incoming.order[j]);
        assert incoming.order[j] in incoming.entries;
      } else {
        forall k | k in incoming.entries
          ensures k in current.entries
        {
          var j := KeyPosition(incoming, k);
        }
      }
    } else if |incoming.order| > 0 {
      assert Writes(current, keepOld, incoming.order[0]);
    }
  }

  /** Nothing inserted leaves the copy equal to the current readings. */
  lemma {:induction false} NoInsertKeepsCurrent(current: Values, incoming: Values, keepOld: bool, n: nat)
    requires n <= |incoming.order|
    requires !InsertsUpTo(current, incoming, keepOld, n)
    ensures MergedUpTo(current, incoming, keepOld, n) == current
  {
    if n > 0 {
      assert !Writes(current, keepOld, incoming.order[n - 1]);
      NoInsertKeepsCurrent(current, incoming, keepOld, n - 1);
    }
  }

  /** The reason an import gives its merged state. */
  function ImportReason(nowText: string): string
  {
    "Imported new values on " + nowText
  }

  /** The imported sensors the user did not match to an existing one, in order. */
  function Unmatched(sensors: seq<Sensor>, choices: seq<Option<string>>): (r: seq<Sensor>)
    requires |choices| == |sensors|
    ensures forall s :: s in r ==> s in sensors
    ensures |r| <= |sensors|
  {
    if sensors == [] then []
    else
      var n := |sensors| - 1;
      Unmatched(sensors[..n], choices[..n]) + (if choices[n].None? then [sensors[n]] else [])
  }

  /** One more imported sensor adds itself to the unmatched ones exactly when
      its choice was cancelled. */
  lemma UnmatchedStep(sensors: seq<Sensor>, choices: seq<Option<string>>, i: nat)
    requires |choices| == |sensors| && i < |sensors|
    ensures Unmatched(sensors[..i + 1], choices[..i + 1])
            == Unmatched(sensors[..i], choices[..i]) + (if choices[i].None? then [sensors[i]] else [])
  {
    assert sensors[..i + 1][..i] == sensors[..i] && choices[..i + 1][..i] == choices[..i];
  }

  /** The first sensor with the given name. */
  function FirstNamed(sensors: seq<Sensor>, name: string): (r: Option<Sensor>)
    reads sensors
    ensures r.Some? ==> r.value in sensors && r.value.name == name
    ensures r.None? <==> forall i :: 0 <= i < |sensors| ==> sensors[i].name != name
  {
    if sensors == [] then None
    else if sensors[0].name == name then Some(sensors[0])
    else
      assert forall i :: 1 <= i < |sensors| ==> sensors[1..][i - 1] == sensors[i];
      FirstNamed(sensors[1..], name)
  }

  /** Merging one imported sensor's readings into the sensor the user chose:
      the chosen sensor's current state is cloned, the imported readings are
      written into the copy, and the copy becomes a new state only when
      something was written. */
  method MergeInto(target: Sensor, incoming: Values, keepOld: bool, now: Timestamp, nowText: string)
      returns (inserted: bool)
    modifies target`undoStack, target`redoStack, target`rawData
    ensures inserted == Inserts(old(target.CurrentValues()), incoming, keepOld)
    ensures inserted ==> target.History() == H.Commit(old(target.History()),
              SensorState(now, Merged(old(target.CurrentValues()), incoming, keepOld), ImportReason(nowText)))
    ensures !inserted ==> target.History() == old(target.History())
    ensures target.rawData == old(target.rawData) || (old(target.rawData).None? && target.rawData == Some(EmptyState(now)))
  {
    var current := target.CurrentState(now);
    var newState := Clone(current, now);
    ghost var base := newState.values;
    ghost var raw := target.rawData;
    assert base == old(target.CurrentValues());
    assert raw == old(target.rawData) || (old(target.rawData).None? && raw == Some(EmptyState(now)));
    var values := newState.values;
    inserted := false;
    for i := 0 to |incoming.order|
      invariant target.History() == old(target.History()) && target.rawData == raw
      invariant values == MergedUpTo(base, incoming, keepOld, i)
      invariant inserted == InsertsUpTo(base, incoming, keepOld, i)
    {
      var k := incoming.order[i];
      assert ContainsKey(values, k) <==> k in base.entries by {
        MergedUpToAt(base, incoming, keepOld, i, k);
        assert k !in incoming.order[..i];
      }
      InsertsUpToStep(base, incoming, keepOld, i);
      if !keepOld || !ContainsKey(values, k) {
        values := Put(values, k, incoming.entries[k]);
        inserted := true;
      }
    }
    newState := SensorState(newState.editTimestamp, values, ImportReason(nowText));
    assert newState == SensorState(now, Merged(base, incoming, keepOld), ImportReason(nowText));
    if inserted {
      target.AddState(newState);
    }
  }

  /** The history a merge leaves: one more state holding the merged readings,
      stamped `now` with the import reason, when something is inserted;
      otherwise the history as it was. */
  function MergedHistory(h: H.History, current: Values, incoming: Values, keepOld: bool,
                         now: Timestamp, nowText: string): (r: H.History)
    ensures Inserts(current, incoming, keepOld) ==>
              |r.undo| > 0 && Last(r.undo).values == Merged(current, incoming, keepOld) && r.redo == []
    ensures !Inserts(current, incoming, keepOld) ==> r == h
  {
    if Inserts(current, incoming, keepOld)
    then H.Commit(h, SensorState(now, Merged(current, incoming, keepOld), ImportReason(nowText)))
    else h
  }

  /** A chosen name: the imported sensor's values are merged into the first
      sensor of the dataset with that name; if there is none, nothing changes. */
  method MergeChosen(ds: Dataset, sensor: Sensor, name: string, keepOld: bool, now: Timestamp, nowText: string)
    modifies set s | s in ds.sensors
    ensures forall s :: s in ds.sensors ==> s.name == old(s.name)
    ensures forall s :: s in ds.sensors && s.name != name ==> s.History() == old(s.History())
    ensures old(FirstNamed(ds.sensors, name)).None? ==> forall s :: s in ds.sensors ==> s.History() == old(s.History())
    ensures old(FirstNamed(ds.sensors, name)).Some? ==>
              var t := old(FirstNamed(ds.sensors, name)).value;
              t.History() == MergedHistory(old(t.History()), old(t.CurrentValues()), old(sensor.CurrentValues()),
                                           keepOld, now, nowText)
  {
    var matching := FirstNamed(ds.sensors, name);
    if matching.None? {
      return;
    }
    var target := matching.value;
    var incoming := sensor.CurrentValues();
    ghost var h, current := target.History(), target.CurrentValues();
    var _ := MergeInto(target, incoming, keepOld, now, nowText);
    assert target.History() == MergedHistory(h, current, incoming, keepOld, now, nowText);
  }

  /** The loop over the imported sensors, once the dataset already has some:
      a cancelled choice appends the sensor, a chosen name merges its values
      into the first sensor so named, and a name no longer found is skipped. */
  method MergeImported(ds: Dataset, sensors: seq<Sensor>, keepOld: bool, choices: seq<Option<string>>,
                       now: Timestamp, nowText: string)
    requires |choices| == |sensors|
    modifies ds`sensors, set s | s in ds.sensors, set s | s in sensors
    ensures ds.sensors == old(ds.sensors) + Unmatched(sensors, choices)
    ensures forall s :: s in old(ds.sensors) ==> s.name == old(s.name)
    ensures forall s :: s in old(ds.sensors) && Some(s.name) !in choices ==> s.History() == old(s.History())
  {
    ghost var before := ds.sensors;
    for i := 0 to |sensors|
      invariant ds.sensors == before + Unmatched(sensors[..i], choices[..i])
      invariant forall s :: s in before ==> s.name == old(s.name)
      invariant forall s :: s in before && Some(s.name) !in choices ==> s.History() == old(s.History())
    {
      UnmatchedStep(sensors, choices, i);
      if choices[i].None? {
        ds.sensors := ds.sensors + [sensors[i]];
      } else {
        MergeChosen(ds, sensors[i], choices[i].value, keepOld, now, nowText);
      }
    }
    assert sensors[..|sensors|] == sensors && choices[..|choices|] == choices;
  }

  class MainWindowViewModel {
    var currentDataset: Dataset?
    var chosenSelectedIndex: int
    var startTime: Timestamp
    var endTime: Timestamp
    /** The times of the data points of each graphed sensor, in graph order. */
    var graphedPoints: seq<seq<Timestamp>>

    constructor ()
      ensures currentDataset == null && chosenSelectedIndex == 0 && graphedPoints == []
      ensures startTime == DateTimeMinValue && endTime == DateTimeMaxValue
    {
      currentDataset := null;
      chosenSelectedIndex := 0;
      startTime := DateTimeMinValue;
      endTime := DateTimeMaxValue;
      graphedPoints := [];
    }

    /** `ChosenSelectedIndex`: -1 while no site is open. */
    function ChosenSelectedIndex(): (r: int)
      reads this
      ensures currentDataset == null ==> r == -1
      ensures currentDataset != null ==> r == chosenSelectedIndex
    {
      if currentDataset != null then chosenSelectedIndex else -1
    }

    /** `CalculateGraphedEndPoints`: the earliest first point and the latest
        last point of the graphed series, swapped when they come out of
        order. With nothing graphed the whole DateTime range is shown. */
    method CalculateGraphedEndPoints()
      modifies this`startTime, this`endTime
      ensures startTime <= endTime
      ensures (forall i :: 0 <= i < |graphedPoints| ==> graphedPoints[i] == []) ==>
                startTime == DateTimeMinValue && endTime == DateTimeMaxValue
      ensures EarliestFirst(graphedPoints) <= LatestLast(graphedPoints) ==>
                startTime == EarliestFirst(graphedPoints) && endTime == LatestLast(graphedPoints)
      ensures EarliestFirst(graphedPoints) > LatestLast(graphedPoints) ==>
                startTime == LatestLast(graphedPoints) && endTime == EarliestFirst(graphedPoints)
    {
      var minimum := DateTimeMaxValue;
      var maximum := DateTimeMinValue;
      for i := 0 to |graphedPoints|
        invariant minimum == EarliestFirst(graphedPoints[..i])
        invariant maximum == LatestLast(graphedPoints[..i])
      {
        assert graphedPoints[..i + 1][..i] == graphedPoints[..i];
        var points := graphedPoints[i];
        if |points| <= 0 {
          continue;
        }
        var first := points[0];
        var last := Last(points);
        if first < minimum {
          minimum := first;
        }
        if last > maximum {
          maximum := last;
        }
      }
      assert graphedPoints[..|graphedPoints|] == graphedPoints;
      if forall i :: 0 <= i < |graphedPoints| ==> graphedPoints[i] == [] {
        NothingGraphed(graphedPoints);
      }
      if minimum > maximum {
        minimum, maximum := maximum, minimum;
      }
      startTime := minimum;
      endTime := maximum;
    }

    /** `StartTimeChanged`: a null event is ignored. */
    method StartTimeChanged(e: Option<DateChange>)
      modifies this`startTime
      ensures e.None? ==> startTime == old(startTime)
      ensures e.Some? ==> startTime == AcceptedStart(e.value, endTime)
    {
      if e.None? {
        return;
      }
      if e.value.oldValue == DateTimeMinValue || e.value.newValue < endTime {
        startTime := e.value.newValue;
      } else {
        startTime := e.value.oldValue;
      }
    }

    /** `EndTimeChanged`: a null event is ignored. */
    method EndTimeChanged(e: Option<DateChange>)
      modifies this`endTime
      ensures e.None? ==> endTime == old(endTime)
      ensures e.Some? ==> endTime == AcceptedEnd(e.value, startTime)
    {
      if e.None? {
        return;
      }
      if e.value.oldValue == DateTimeMinValue || e.value.newValue > startTime {
        endTime := e.value.newValue;
      } else {
        endTime := e.value.oldValue;
      }
    }

    /** The `SiteNames` getter, over the saved files `files`. When a site is
        open and its name `currentSiteName` is among the names, the getter
        also selects it. */
    method GetSiteNames(files: seq<string>, currentSiteName: string) returns (r: Result<seq<string>>)
      modifies this`chosenSelectedIndex
      ensures r == SiteNames(files)
      ensures r.Ok? && currentDataset != null && currentSiteName in r.value ==>
                chosenSelectedIndex == IndexOf(r.value, currentSiteName) && r.value[chosenSelectedIndex] == currentSiteName
      ensures !(r.Ok? && currentDataset != null && currentSiteName in r.value) ==>
                chosenSelectedIndex == old(chosenSelectedIndex)
    {
      r := SiteNames(files);
      if r.Ok? && currentDataset != null && currentSiteName in r.value {
        chosenSelectedIndex := IndexOf(r.value, currentSiteName);
      }
    }

    /** `CreateNewSite`'s choice of name, given the files already saved:
        "New Site", or else "New Site" with the smallest number from 1 up
        whose file is not saved yet. */
    method CreateNewSite(existing: set<string>) returns (newSitesName: string)
      ensures SiteFileName(newSitesName) !in existing
      ensures SiteFileName(NewSiteName) !in existing ==> newSitesName == NewSiteName
      ensures SiteFileName(NewSiteName) in existing ==>
                exists x: nat :: x >= 1 && newSitesName == NumberedSite(x) &&
                  forall y :: 1 <= y < x ==> SiteFileName(NumberedSite(y)) in existing
    {
      newSitesName := NewSiteName;
      if SiteFileName(NewSiteName) in existing {
        var x := 1;
        ghost var seen: set<string> := {};
        while SiteFileName(NumberedSite(x)) in existing
          invariant x >= 1
          invariant seen <= existing && |seen| == x - 1
          invariant forall y :: 1 <= y < x ==> SiteFileName(NumberedSite(y)) in existing
          invariant forall y: nat :: y >= x ==> SiteFileName(NumberedSite(y)) !in seen
          decreases |existing| - |seen|
        {
          var f := SiteFileName(NumberedSite(x));
          forall y: nat | y >= x + 1
            ensures SiteFileName(NumberedSite(y)) != f
          {
            NumberedSiteFilesDistinct(x, y);
          }
          SubsetCard(seen + {f}, existing);
          seen := seen + {f};
          x := x + 1;
        }
        newSitesName := NumberedSite(x);
      }
    }

    /** The import's completion handler. No result (the read failed) does
        nothing. A dataset without sensors takes the imported list as it is.
        Otherwise each imported sensor, in order, is either added (the user
        cancelled the match: `None`) or merged into the first sensor bearing
        the chosen name, if there is one. */
    method ImportCompleted(imported: Option<seq<Sensor>>, keepOld: bool, choices: seq<Option<string>>,
                           now: Timestamp, nowText: string) returns (o: Outcome)
      requires imported.Some? ==> |choices| == |imported.value|
      modifies currentDataset
      modifies if currentDataset == null then {} else set s | s in currentDataset.sensors
      modifies if imported.None? then {} else set s | s in imported.value
      ensures imported.None? ==> o == Done && (currentDataset != null ==> currentDataset.sensors == old(currentDataset.sensors))
      ensures imported.Some? && currentDataset == null ==> o == Fail(NullReference)
      ensures imported.Some? && currentDataset != null && old(currentDataset.sensors) == [] ==>
                o == Done && currentDataset.sensors == imported.value
      ensures imported.Some? && currentDataset != null && old(currentDataset.sensors) != [] ==>
                o == Done && currentDataset.sensors == old(currentDataset.sensors) + Unmatched(imported.value, choices)
      ensures currentDataset != null ==>
                forall s :: s in old(currentDataset.sensors) && Some(s.name) !in choices ==>
                  s.History() == old(s.History())
    {
      if imported.None? {
        return Done;
      }
      if currentDataset == null {
        return Fail(NullReference);
      }
      var sensors := imported.value;
      var ds := currentDataset;
      if |ds.sensors| == 0 {
        ds.SetSensors(sensors);
        return Done;
      }
      MergeImported(ds, sensors, keepOld, choices, now, nowText);
      return Done;
    }
  }
}
