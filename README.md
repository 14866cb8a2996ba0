# IndiaTango sensor data editing, modelled in Dafny

IndiaTango (B3) is a desktop tool for cleaning the data that water-quality
buoys record. A **dataset** covers a time span and holds **sensors**. Each
sensor keeps its readings as a stack of **sensor states**, so that edits can be
undone and redone. This project models the core of that program in Dafny 4.11:

- the sensor, with its validated properties, its undo/redo history, its failure
  check and its naming guess;
- the sensor state, with its copy, its equality, and its missing-value and
  outlier scans;
- the dataset, with its checks, its data-point count and its gap report;
- two detection methods, for missing values and for values outside the limits;
- the CSV reader;
- the dataset exporter;
- the rules inside the main window's callbacks: the graph's end points, the
  date pickers, the site names, the new-site name, and merging an import.

Modelling choices:

- A timestamp is an `int` count of minutes. `DateTime.MinValue` (also
  `new DateTime()`) is 0, and `DateTime.MaxValue` is the last minute of year 9999.
- A reading is a `real`.
- A `Dictionary<DateTime, float>` is an insertion-ordered table (`ValueTable`):
  a map plus the order its keys were added in. The source depends on that
  order in several places: `ElementAt(0)`, `foreach`, positional indexing, and
  where `Equals` throws.
- Sensor states are values. A sensor's history lives in the pure module
  `SensorHistory`. The `Sensor` class's methods are proved to change the stacks
  exactly as its functions say, and the history laws are lemmas about those
  functions.
- Classes keep the source's mutable fields: `Sensor`, `Dataset`, `CsvReader`
  (its sensor array is an `array`), `DatasetExporter`, `ExportFormat`,
  the detectors and `MainWindowViewModel`.
- Loops in the source are `while`/`for` loops here, proved against a function
  of their inputs.
- An exception is an `Err` of a `Result`, or a `Fail` of an `Outcome`; the
  exception's kind is kept.
- Inputs the program gets from outside are parameters. These are: the file's
  lines, whether a file exists, the clock (`now`, and `nowText` for its printed
  form), the user's dialog answers, the application settings, the dataset's
  data interval, and the parsers for dates and numbers.

## Model

| member | source | states |
|---|---|---|
| ValueTable.Add | IndiaTango/IndiaTango/Models/CsvReader.cs:90-91 | `Dictionary.Add`: fails exactly when the key is present; otherwise the key maps to the value and is appended to the key order |
| ValueTable.Put | IndiaTango/IndiaTango/ViewModels/MainWindowViewModel.cs:1065 | the indexer `d[k] = v`: the key maps to the value; a present key keeps its place, a new one is appended |
| SensorStates.NewSensorState | IndiaTango/IndiaTango/Models/SensorState.cs:46-54 | a null value table is rejected with ArgumentNullException, and only then; otherwise the state has the given stamp and reason |
| SensorStates.Clone | IndiaTango/IndiaTango/Models/SensorState.cs:17-22 | the copy has the same readings in the same order, is stamped with the clock, and has an empty reason |
| SensorStates.StateEquals | IndiaTango/IndiaTango/Models/SensorState.cs:85-107 | not a state, a different stamp or a different count gives false. True is returned exactly when the stamps and the readings agree. KeyNotFoundException is thrown exactly when the walk meets a key the other state lacks before any mismatch |
| SensorStates.SubmapOfSameSize | IndiaTango/IndiaTango/Models/SensorState.cs:97-104 | equal counts and every key of one table agreeing in the other make the tables equal, which is why the walk's `true` means equality |
| SensorStates.NoThrowBeforeMismatch | IndiaTango/IndiaTango/Models/SensorState.cs:100-104 | a differing reading met before any missing key means the walk returns false without throwing, and the tables differ |
| SensorStates.CadenceStep | IndiaTango/IndiaTango/Models/SensorState.cs:112 | a tick of the cadence from `t` is `t` itself or a tick of the cadence from `t + gap` |
| SensorStates.MissingTicksExact | IndiaTango/IndiaTango/Models/SensorState.cs:112-118 | a time is reported exactly when it is a tick from the start, not after the end, and has no reading |
| SensorStates.MissingTicksAscending | IndiaTango/IndiaTango/Models/SensorState.cs:112-118 | the reported times are strictly ascending and none is before the start |
| SensorStates.GetMissingTimes | IndiaTango/IndiaTango/Models/SensorState.cs:109-120 | the loop returns the ticks without a reading, as `MissingTicks` defines them |
| SensorStates.MissingTimesMeaning | IndiaTango/IndiaTango/Models/SensorState.cs:109-120 | `GetMissingTimes` is ascending and holds exactly the ticks `start + k*gap <= end` that have no reading |
| SensorStates.GetOutliers | IndiaTango/IndiaTango/Models/SensorState.cs:122-137 | the loop, with its `prev` variable, returns the ticks the outlier rule flags (`OutliersFrom`) |
| SensorStates.OutliersExact | IndiaTango/IndiaTango/Models/SensorState.cs:126-135 | a time is flagged exactly when it is a tick within the span and the outlier rule holds there |
| SensorStates.OutliersAscending | IndiaTango/IndiaTango/Models/SensorState.cs:126-135 | the flagged times are strictly ascending, so each is flagged once |
| SensorStates.OutliersMeaning | IndiaTango/IndiaTango/Models/SensorState.cs:122-137 | a tick without a reading is never flagged; a reading outside the limits always is; a reading within them, other than at the start, is flagged exactly when it differs from the previous reading by more than the rate |
| SensorStates.PrevValueIsLatest | IndiaTango/IndiaTango/Models/SensorState.cs:125-134 | `prev` is 0 until some earlier tick has a reading; after that it is the reading of the latest earlier tick that has one |
| SensorStates.CadenceBelowGap | IndiaTango/IndiaTango/Models/SensorState.cs:126 | the only tick below `start + gap` is the start |
| SensorStates.CadenceOneBack | IndiaTango/IndiaTango/Models/SensorState.cs:126 | the tick before a later tick is also a tick |
| SensorStates.CadenceGapAtLeast | IndiaTango/IndiaTango/Models/SensorState.cs:126 | two distinct ticks are at least one gap apart |
| SensorStates.FlatSeriesHasNoOutliers | IndiaTango/IndiaTango/Models/SensorState.cs:122-137 | four equal readings inside the limits produce no outliers |
| SensorStates.SpikeIsFlagged | IndiaTango/IndiaTango/Models/SensorState.cs:122-137 | a reading above the limit is flagged, and so is the reading after it, because the rate rule compares it with the spike |
| SensorHistory.Commit | IndiaTango/IndiaTango/Models/Sensor.cs:512-530 | `AddState` pushes the new state and clears redo. A full stack of five loses its bottom state, and the others keep their order |
| SensorHistory.Undo | IndiaTango/IndiaTango/Models/Sensor.cs:488-495 | fails with InvalidOperationException exactly when the undo stack is empty; otherwise the undo top is popped |
| SensorHistory.Redo | IndiaTango/IndiaTango/Models/Sensor.cs:500-506 | fails with InvalidOperationException exactly when the redo stack is empty; otherwise the redo top is popped |
| SensorHistory.TopmostWith | IndiaTango/IndiaTango/Models/Sensor.cs:552 | finds the topmost state with that stamp, or reports that no state has it |
| SensorHistory.CommitMakesCurrent | IndiaTango/IndiaTango/Models/Sensor.cs:512-530 | after `AddState(s)`, `s` is the current state and redo fails |
| SensorHistory.CommitBounded | IndiaTango/IndiaTango/Models/Sensor.cs:514-527 | from a stack of at most five, `AddState` keeps at most five: the bottom is dropped only when the stack is full |
| SensorHistory.CommitAllKeepsLatest | IndiaTango/IndiaTango/Models/Sensor.cs:512-530 | after any number of `AddState` calls, the undo stack holds exactly the five most recent states, oldest first |
| SensorHistory.UndoThenRedo | IndiaTango/IndiaTango/Models/Sensor.cs:488-506 | `Undo` followed by `Redo` gives back both stacks |
| SensorHistory.RedoThenUndo | IndiaTango/IndiaTango/Models/Sensor.cs:488-506 | `Redo` followed by `Undo` gives back both stacks |
| SensorHistory.UndoRedoKeepTimeline | IndiaTango/IndiaTango/Models/Sensor.cs:488-506 | undo and redo move between versions without adding, losing or reordering any of them |
| SensorHistory.StackSizes | IndiaTango/IndiaTango/Models/Sensor.cs:488-538 | the undo stack never exceeds five. Undo and redo keep the total number of states. Reverting empties undo and moves every state to redo |
| SensorHistory.RedoNMoves | IndiaTango/IndiaTango/Models/Sensor.cs:500-506 | `n` redos move the top `n` redo states onto undo, top first |
| SensorHistory.UndoNMoves | IndiaTango/IndiaTango/Models/Sensor.cs:488-495 | `n` undos move the top `n` undo states onto redo, top first |
| SensorHistory.RevertThenRedoAll | IndiaTango/IndiaTango/Models/Sensor.cs:532-538 | after `RevertToRaw`, as many redos as there were undo states give back the original history |
| SensorHistory.UndoToAbsent | IndiaTango/IndiaTango/Models/Sensor.cs:550-566 | with no undo state of that stamp, `Undo(t)` changes nothing |
| SensorHistory.UndoToPresent | IndiaTango/IndiaTango/Models/Sensor.cs:550-566 | with such a state, `Undo(t)` is a number of plain undos. It leaves a state of that stamp current, with none above it |
| SensorHistory.UndoToKeepsTimeline | IndiaTango/IndiaTango/Models/Sensor.cs:550-566 | `Undo(t)` loses no version |
| SensorHistory.RedoToAbsent | IndiaTango/IndiaTango/Models/Sensor.cs:572-590 | with no redo state of that stamp, `Redo(t)` changes nothing |
| SensorHistory.RedoToPresent | IndiaTango/IndiaTango/Models/Sensor.cs:572-590 | with such a state, `Redo(t)` is a number of plain redos. It leaves the topmost state of that stamp current |
| SensorHistory.RedoToKeepsTimeline | IndiaTango/IndiaTango/Models/Sensor.cs:572-590 | `Redo(t)` loses no version |
| SensorHistory.RevertToRawMeaning | IndiaTango/IndiaTango/Models/Sensor.cs:532-538 | after reverting, the raw state is current and every version is still reachable by redo |
| Sensors.WithLower | IndiaTango/IndiaTango/Models/Sensor.cs:288-304 | the `LowerLimit` setter keeps lower <= upper. A value above the upper limit becomes the upper limit and the old upper becomes the lower one |
| Sensors.WithUpper | IndiaTango/IndiaTango/Models/Sensor.cs:310-325 | the `UpperLimit` setter, the mirror image of `LowerLimit` |
| Sensors.ConstructorLimits | IndiaTango/IndiaTango/Models/Sensor.cs:147-148 | the constructor sets the upper limit before the lower one, starting from 0/0. A negative upper limit therefore ends with the limits (lower, 0), not (lower, upper) |
| Sensors.SettersWithinLimits | IndiaTango/IndiaTango/Models/Sensor.cs:288-325 | a value within the current limits moves only the limit being set |
| Sensors.ConstructorError | IndiaTango/IndiaTango/Models/Sensor.cs:123-142 | the constructor's checks in source order: ArgumentNullException for an empty name or unit, or a null serial, dates or stack. Then ArgumentOutOfRangeException for upper <= lower. Then ArgumentException from the error threshold setter |
| Sensors.RunLengthMeaning | IndiaTango/IndiaTango/Models/Sensor.cs:455-468 | the loop's `incidence` counts exactly the absent ticks since the last present one |
| Sensors.RunEndsAtByLength | IndiaTango/IndiaTango/Models/Sensor.cs:464 | `incidence` reaching the threshold at tick `j` is the same as `threshold` absent ticks in a row ending at `j` |
| Sensors.LowerRun | IndiaTango/IndiaTango/Models/Sensor.cs:598 | the length of the leading run of small letters |
| Sensors.Matches | IndiaTango/IndiaTango/Models/Sensor.cs:598-600 | every match of `(([A-Z])[a-z]*)` is a capital letter followed by small letters |
| Sensors.NoMatchesWithoutCapitals | IndiaTango/IndiaTango/Models/Sensor.cs:598-600 | there is no match exactly when the name has no capital letter |
| Sensors.GuessWithoutCapitals | IndiaTango/IndiaTango/Models/Sensor.cs:600-609 | a name without capitals is its own guess |
| Sensors.FirstMatch | IndiaTango/IndiaTango/Models/Sensor.cs:598-600 | a word not followed by a small letter is the first match |
| Sensors.LowerRunOfWord | IndiaTango/IndiaTango/Models/Sensor.cs:598 | the match of a word stops where its small letters stop |
| Sensors.GuessTwoWords | IndiaTango/IndiaTango/Models/Sensor.cs:592-610 | two leading capitalised words are the guess, whatever follows them |
| Sensors.GuessConventionalName | IndiaTango/IndiaTango/Models/Sensor.cs:592-610 | a name without capitals is returned as it is. Otherwise the guess starts with a capital and holds only letters |
| Sensors.MatchesSkipUncapitalised | IndiaTango/IndiaTango/Models/Sensor.cs:598-600 | a prefix without capitals adds no match |
| Sensors.MatchesOfInterleave | IndiaTango/IndiaTango/Models/Sensor.cs:598-600 | a name made of capitalised words, separated by gaps that hold no capital and do not go on with a small letter, has exactly those words as its matches, in order |
| Sensors.GuessOfInterleave | IndiaTango/IndiaTango/Models/Sensor.cs:600-609 | for such a name the guess is the name itself without words, the only word with one, and the first two words joined otherwise |
| Sensors.Sensor.constructor | IndiaTango/IndiaTango/Models/Sensor.cs:121-160 | once the checks pass: the fields as given, the limits as the setter chain leaves them, the given stacks, and no raw state yet |
| Sensors.Sensor.Create | IndiaTango/IndiaTango/Models/Sensor.cs:121-160 | fails exactly when `ConstructorError` finds an error, with that error; otherwise a valid new sensor |
| Sensors.Sensor.CreateNamed | IndiaTango/IndiaTango/Models/Sensor.cs:44 | `new Sensor(name, unit)`: ArgumentNullException for an empty name or unit; ArgumentException for a default error threshold below 1; the limits are 0 and 100 |
| Sensors.Sensor.SetName | IndiaTango/IndiaTango/Models/Sensor.cs:245-254 | the `Name` setter ignores an empty name. The sensor stays valid |
| Sensors.Sensor.SetUnit | IndiaTango/IndiaTango/Models/Sensor.cs:331-340 | the `Unit` setter ignores an empty unit and accepts null. The sensor stays valid |
| Sensors.Sensor.SetLowerLimit | IndiaTango/IndiaTango/Models/Sensor.cs:288-304 | the limits become `WithLower` of the old ones. The sensor stays valid |
| Sensors.Sensor.SetUpperLimit | IndiaTango/IndiaTango/Models/Sensor.cs:310-325 | the limits become `WithUpper` of the old ones. The sensor stays valid |
| Sensors.Sensor.SetErrorThreshold | IndiaTango/IndiaTango/Models/Sensor.cs:411-420 | below 1 throws ArgumentException and keeps the old value; otherwise it is set. The sensor stays valid |
| Sensors.Sensor.SetSerialNumber | IndiaTango/IndiaTango/Models/Sensor.cs:378-388 | null throws ArgumentNullException and keeps the old value; otherwise it is set. The sensor stays valid |
| Sensors.Sensor.SetCalibrationDates | IndiaTango/IndiaTango/Models/Sensor.cs:223-233 | null throws FormatException and keeps the old value; otherwise it is set. The sensor stays valid |
| Sensors.Sensor.RawData | IndiaTango/IndiaTango/Models/Sensor.cs:427-430 | the raw state is created empty, stamped with the clock, on first use, and kept after that |
| Sensors.Sensor.CurrentState | IndiaTango/IndiaTango/Models/Sensor.cs:391-394 | the undo top, or the raw state when the undo stack is empty; the readings seen are `CurrentValues` |
| Sensors.Sensor.AddState | IndiaTango/IndiaTango/Models/Sensor.cs:512-530 | the reverse-pop-reverse loops leave the stacks as `SensorHistory.Commit` says |
| Sensors.Sensor.DropOldest | IndiaTango/IndiaTango/Models/Sensor.cs:514-525 | reversing into a second stack, popping once and reversing back removes exactly the bottom state |
| Sensors.Sensor.Undo | IndiaTango/IndiaTango/Models/Sensor.cs:488-495 | the stacks change as `SensorHistory.Undo` says, or stay as they were when it fails, with its error |
| Sensors.Sensor.Redo | IndiaTango/IndiaTango/Models/Sensor.cs:500-506 | the stacks change as `SensorHistory.Redo` says, or stay as they were when it fails, with its error |
| Sensors.Sensor.RevertToRaw | IndiaTango/IndiaTango/Models/Sensor.cs:532-538 | the loop leaves the stacks as `SensorHistory.RevertToRaw` says |
| Sensors.Sensor.UndoTo | IndiaTango/IndiaTango/Models/Sensor.cs:550-566 | the search and the loop leave the stacks as `SensorHistory.UndoTo` says |
| Sensors.Sensor.RedoTo | IndiaTango/IndiaTango/Models/Sensor.cs:572-590 | the search, the first redo and the loop leave the stacks as `SensorHistory.RedoTo` says |
| Sensors.Sensor.AddCurrentValue | IndiaTango/IndiaTango/Models/CsvReader.cs:88-95 | `CurrentState.Values.Add` whose exception is swallowed: a new time is added to the top state, and a present one leaves the readings unchanged. The stack and the top state's stamp stay the same, and so does the raw state. With an empty undo stack the reading goes into the raw state, created first if need be |
| Sensors.Sensor.IsFailing | IndiaTango/IndiaTango/Models/Sensor.cs:437-471 | false when detection is switched off. A null dataset throws NullReferenceException. Otherwise the result is true exactly when there are readings and some `threshold` consecutive ticks from the first reading, among the expected ones, all lack a reading. Nothing changes |
| Datasets.ZeroReadings | IndiaTango/IndiaTango/Models/Dataset.cs:103 | each gap tick turns into a reading of 0 at that tick |
| Datasets.ZeroReadingsConcat | IndiaTango/IndiaTango/Models/Dataset.cs:94-109 | the report for several sensors is the reports for each, one after another |
| Datasets.GapsStep | IndiaTango/IndiaTango/Models/Dataset.cs:96-107 | one more reading adds the gap since the reading before it |
| Datasets.GapFillMeaning | IndiaTango/IndiaTango/Models/Dataset.cs:98-105 | the filled ticks are exactly the times strictly between two readings that are a whole number of intervals after the first |
| Datasets.GapFillAscending | IndiaTango/IndiaTango/Models/Dataset.cs:100-105 | the filled ticks are ascending and lie strictly between the two readings |
| Datasets.GapFillEmpty | IndiaTango/IndiaTango/Models/Dataset.cs:98 | readings one interval or less apart leave no gap |
| Datasets.GapFillCount | IndiaTango/IndiaTango/Models/Dataset.cs:100-105 | readings `k` intervals apart leave `k - 1` gap ticks |
| Datasets.TwoHourGap | IndiaTango/IndiaTango/Models/Dataset.cs:100-105 | at an interval of 15 minutes, readings two hours apart leave the seven ticks in between |
| Datasets.GapsMeaning | IndiaTango/IndiaTango/Models/Dataset.cs:96-107 | a time is reported for a sensor exactly when it lies strictly between two consecutive readings, on the cadence of the earlier one |
| Datasets.TwoReadingsTwoHoursApart | IndiaTango/IndiaTango/Models/Dataset.cs:91-111 | a sensor with readings at 0:00 and 2:00 reports 0:15 to 1:45 |
| Datasets.Dataset.constructor | IndiaTango/IndiaTango/Models/Dataset.cs:20-30 | the buoy and span as given, and no sensors |
| Datasets.Dataset.Create | IndiaTango/IndiaTango/Models/Dataset.cs:20-30 | a null buoy, or a start not before the end, throws ArgumentException, and only these do |
| Datasets.Dataset.SetBuoy | IndiaTango/IndiaTango/Models/Dataset.cs:35-44 | null throws FormatException and keeps the buoy; otherwise it is set |
| Datasets.Dataset.SetSensors | IndiaTango/IndiaTango/Models/Dataset.cs:65-69 | the list is replaced as given |
| Datasets.Dataset.AddSensor | IndiaTango/IndiaTango/Models/Dataset.cs:75-80 | null throws ArgumentException and keeps the list; otherwise the sensor is appended |
| Datasets.Dataset.DataPointCount | IndiaTango/IndiaTango/Models/Dataset.cs:82-89 | the number of whole 15-minute intervals in the span (the floor) |
| Datasets.Dataset.GetMissingTimes | IndiaTango/IndiaTango/Models/Dataset.cs:91-111 | the loops report, sensor after sensor, each gap tick as a zero reading |
| Datasets.SensorGaps | IndiaTango/IndiaTango/Models/Dataset.cs:96-107 | the inner loops report one sensor's gap ticks, in order, as zero readings |
| Detectors.Flagged | IndiaTango/IndiaTango/Models/MissingValuesDetector.cs:41 | each tick becomes a value flagged by the detector on the checked sensor |
| Detectors.FlaggedConcat | IndiaTango/IndiaTango/Models/MissingValuesDetector.cs:37-43 | flagging distributes over concatenation |
| Detectors.MissingValuesDetector.constructor | IndiaTango/IndiaTango/Models/MissingValuesDetector.cs:88 | a new detector is not enabled |
| Detectors.MissingValuesDetector.GetDetectedValues | IndiaTango/IndiaTango/Models/MissingValuesDetector.cs:31-46 | with no owner, NullReferenceException. Otherwise each tick of the owner's span that has no reading, flagged as missing |
| Detectors.MissingValuesDetector.CheckIndividualValue | IndiaTango/IndiaTango/Models/MissingValuesDetector.cs:68-71 | a time is erroneous exactly when it has no reading |
| Detectors.MissingValuesDetected | IndiaTango/IndiaTango/Models/MissingValuesDetector.cs:37-45 | every value reported is this detector's and the checked sensor's, and the times are strictly ascending |
| Detectors.MissingCheckAgreesWithWalk | IndiaTango/IndiaTango/Models/MissingValuesDetector.cs:37-45 | a tick of the span is reported by the walk exactly when the individual check calls it erroneous |
| Detectors.Classify | IndiaTango/IndiaTango/Models/MinMaxDetector.cs:50-53 | below the lower limit is flagged below-min. Otherwise above the upper limit is flagged above-max. Within the limits is not flagged |
| Detectors.ViolationsExact | IndiaTango/IndiaTango/Models/MinMaxDetector.cs:48-54 | a value is reported exactly when its time is a key whose reading breaks a limit, with the tag `Classify` gives |
| Detectors.ViolationsOnce | IndiaTango/IndiaTango/Models/MinMaxDetector.cs:48-54 | each time is reported at most once, in key order |
| Detectors.MinMaxDetector.constructor | IndiaTango/IndiaTango/Models/MinMaxDetector.cs:23-27 | a new detector shows no limit lines and is not enabled |
| Detectors.MinMaxDetector.SetShowMaxMinLines | IndiaTango/IndiaTango/Models/MinMaxDetector.cs:77-88 | the check box's handlers decide `HasGraphableSeries` |
| Detectors.MinMaxDetector.GetDetectedValues | IndiaTango/IndiaTango/Models/MinMaxDetector.cs:44-57 | the loop reports the limit breaches of the current readings, in stored order |
| Detectors.MinMaxDetector.CheckIndividualValue | IndiaTango/IndiaTango/Models/MinMaxDetector.cs:144-150 | a present time gives false; an absent one throws KeyNotFoundException, because the guard is inverted |
| Detectors.MinMaxDetected | IndiaTango/IndiaTango/Models/MinMaxDetector.cs:44-57 | with the sensor's own limits: no time is reported twice, and a value is reported exactly when it is a current reading outside the limits with the matching tag |
| CsvReading.Split | IndiaTango/IndiaTango/Models/CsvReader.cs:51 | `Split(',')` gives at least one piece and no piece holds the separator |
| CsvReading.JoinSplit | IndiaTango/IndiaTango/Models/CsvReader.cs:51 | joining the pieces gives back the text |
| CsvReading.SplitAfterPiece | IndiaTango/IndiaTango/Models/CsvReader.cs:51 | a piece without the separator goes at the front of the first piece |
| CsvReading.SplitJoin | IndiaTango/IndiaTango/Models/CsvReader.cs:51 | pieces without the separator, joined and split, come back unchanged |
| CsvReading.FirstBadRow | IndiaTango/IndiaTango/Models/CsvReader.cs:79-82 | the first data row with the wrong field count or an unparsable time; every row before it is fine |
| CsvReading.Step | IndiaTango/IndiaTango/Models/CsvReader.cs:86-95 | a blank or unparsable cell adds nothing; a time already present adds nothing; otherwise `Add` |
| CsvReading.RowStep | IndiaTango/IndiaTango/Models/CsvReader.cs:69-98 | reading one more good row moves each sensor on by exactly that row's cell |
| CsvReading.CellEntries | IndiaTango/IndiaTango/Models/CsvReader.cs:84-96 | each row's contribution to a sensor, row by row |
| CsvReading.ColumnTableIsFold | IndiaTango/IndiaTango/Models/CsvReader.cs:69-98 | a sensor's readings are its cells added one by one |
| CsvReading.FoldEntriesMeaning | IndiaTango/IndiaTango/Models/CsvReader.cs:88-95 | a time is present exactly when some cell has it, and its reading is that of the first such cell |
| CsvReading.LaterFirst | IndiaTango/IndiaTango/Models/CsvReader.cs:88-95 | a cell at a time means there is a first cell at that time |
| CsvReading.ColumnTableMeaning | IndiaTango/IndiaTango/Models/CsvReader.cs:69-98 | a sensor holds a reading at `x` exactly when some row has a cell for it at `x`; the first such row wins, and later duplicates do not overwrite it |
| CsvReading.FirstBadColumn | IndiaTango/IndiaTango/Models/CsvReader.cs:58-65 | the first sensor column whose `new Sensor(name, null)` throws; every one before it is made |
| CsvReading.CsvReader.constructor | IndiaTango/IndiaTango/Models/CsvReader.cs:15-24 | the file name as given, and no sensors read yet |
| CsvReading.CsvReader.Create | IndiaTango/IndiaTango/Models/CsvReader.cs:15-24 | a name not ending in ".csv", or a missing file, throws ArgumentException, and only these do |
| CsvReading.CsvReader.ReadSensors | IndiaTango/IndiaTango/Models/CsvReader.cs:31-108 | a later call gives back the first call's sensors. A first call keeps a new array that `Read` describes: one slot per sensor column, the exception `ReadError` names if any, and the sensors made holding exactly the readings of the rows read before the read stopped |
| CsvReading.CsvReader.FirstRead | IndiaTango/IndiaTango/Models/CsvReader.cs:39-107 | the first read leaves a fresh array that `Read` describes: one slot per sensor column, the exception `ReadError` names or all the slots, and the sensors made hold the readings of the rows read |
| CsvReading.CsvReader.ReadColumns | IndiaTango/IndiaTango/Models/CsvReader.cs:55-98 | once the header has split, the header loop and the row loop leave what `Read` describes |
| CsvReading.CsvReader.NewSensor | IndiaTango/IndiaTango/Models/CsvReader.cs:63-64 | `new Sensor(name, null)` throws, with its exception, exactly for an empty name or a default error threshold below 1; otherwise the new sensor has that name, limits 0 to 100 and one empty state stamped `now` |
| CsvReading.TablesStep | IndiaTango/IndiaTango/Models/CsvReader.cs:69-98 | reading one more good row moves every sensor on by its own cell of that row |
| CsvReading.NoRowsRead | IndiaTango/IndiaTango/Models/CsvReader.cs:56-65 | before any data row, every sensor's readings are empty |
| CsvReading.CsvReader.ReadData | IndiaTango/IndiaTango/Models/CsvReader.cs:68-107 | once every sensor is made, the read fails with FormatException exactly when a data row is bad. Otherwise it returns the array. Either way the sensors hold the rows before the first bad one |
| CsvReading.CsvReader.ReadRows | IndiaTango/IndiaTango/Models/CsvReader.cs:68-98 | the row loop stops at `FirstBadRow`, and each sensor then holds its column's readings up to there |
| CsvReading.CsvReader.CreateSensors | IndiaTango/IndiaTango/Models/CsvReader.cs:56-65 | the header loop makes distinct new sensors up to `FirstBadColumn`, each with its column's name and one empty state |
| CsvReading.CsvReader.ReadRow | IndiaTango/IndiaTango/Models/CsvReader.cs:84-97 | one good row moves each sensor on by its cell |
| CsvReading.CsvReader.ReadRowAt | IndiaTango/IndiaTango/Models/CsvReader.cs:84-97 | after one more good row, the sensors hold the column tables of the rows read so far, that row included |
| CsvReading.AddCell | IndiaTango/IndiaTango/Models/CsvReader.cs:86-96 | one cell, in its try/catch, moves the sensor on by `Step` |
| CsvReading.FirstBadColumnAt | IndiaTango/IndiaTango/Models/CsvReader.cs:58-65 | the column where the header loop stops is `FirstBadColumn` |
| Exporting.SensorNames | IndiaTango/IndiaTango/Models/DatasetExporter.cs:34-35 | the sensors' names, in list order |
| Exporting.JoinSnoc | IndiaTango/IndiaTango/Models/DatasetExporter.cs:35 | joining one more part adds the delimiter and the part |
| Exporting.TerminatedIsJoin | IndiaTango/IndiaTango/Models/DatasetExporter.cs:31-38 | stripping the trailing delimiter from the built headings leaves them joined by the delimiter |
| Exporting.HeaderLineSnoc | IndiaTango/IndiaTango/Models/DatasetExporter.cs:31-38 | one more sensor adds the delimiter and its name at the end, with no trailing delimiter |
| Exporting.HeaderLineNoSensors | IndiaTango/IndiaTango/Models/DatasetExporter.cs:31-38 | with no sensors the line is "dd/mm/yy,hh:mm" |
| Exporting.HeaderReadsBack | IndiaTango/IndiaTango/Models/DatasetExporter.cs:31-39 | the CSV reader gives back the sensor names from an exported heading line, provided no name holds a comma |
| Exporting.ExportFormat.constructor | IndiaTango/IndiaTango/Models/DatasetExporter.cs:66-70 | the extension and name as given |
| Exporting.ExportFormat.Csv | IndiaTango/IndiaTango/Models/DatasetExporter.cs:80 | a new format object on every call, with ".csv" and "Comma Seperated Value File" |
| Exporting.ExportFormat.Txt | IndiaTango/IndiaTango/Models/DatasetExporter.cs:82 | a new format object on every call, with ".txt" and "Tab Deliminated Text File" |
| Exporting.ExportFormat.Xlsx | IndiaTango/IndiaTango/Models/DatasetExporter.cs:84 | a new format object on every call, with ".xlsx" and "Excel Workbook" |
| Exporting.ExportFormat.ToString | IndiaTango/IndiaTango/Models/DatasetExporter.cs:90-93 | the name, then "(*", then the extension, then ")" |
| Exporting.DatasetExporter.constructor | IndiaTango/IndiaTango/Models/DatasetExporter.cs:10-16 | the dataset as given |
| Exporting.DatasetExporter.Create | IndiaTango/IndiaTango/Models/DatasetExporter.cs:10-16 | a null dataset throws ArgumentNullException, and only a null one does |
| Exporting.DatasetExporter.BuildHeader | IndiaTango/IndiaTango/Models/DatasetExporter.cs:30-38 | the loop builds the two time headings and the sensor names joined by commas |
| Exporting.DatasetExporter.ExportAsWritten | IndiaTango/IndiaTango/Models/DatasetExporter.cs:18-56 | a null or blank path, or a null format, throws ArgumentNullException. Any other call writes nothing, because the format test compares references |
| Exporting.DatasetExporter.Export | IndiaTango/IndiaTango/Models/DatasetExporter.cs:18-56 | the same checks. A CSV format, recognised by its value, writes the heading line; TXT and XLSX write nothing |
| Exporting.CsvExportWritesNothing | IndiaTango/IndiaTango/Models/DatasetExporter.cs:26 | for a valid path, exporting with `ExportFormat.CSV` writes nothing as written, and writes the heading line as intended |
| MainWindow.EarliestFirst | IndiaTango/IndiaTango/ViewModels/MainWindowViewModel.cs:539-554 | at most `DateTime.MaxValue`, at most every non-empty series' first point, and either `MaxValue` or one of those points |
| MainWindow.LatestLast | IndiaTango/IndiaTango/ViewModels/MainWindowViewModel.cs:540-554 | at least `DateTime.MinValue`, at least every non-empty series' last point, and either `MinValue` or one of those points |
| MainWindow.ForwardSeriesEndPoints | IndiaTango/IndiaTango/ViewModels/MainWindowViewModel.cs:537-567 | when the series run forward and one has points, the earliest first point is not after the latest last point, and both are points of the series, so no swap happens |
| MainWindow.MainWindowViewModel.constructor | IndiaTango/IndiaTango/ViewModels/MainWindowViewModel.cs:143-144 | start at `DateTime.MinValue`, end at `DateTime.MaxValue`, no dataset, nothing graphed |
| MainWindow.MainWindowViewModel.CalculateGraphedEndPoints | IndiaTango/IndiaTango/ViewModels/MainWindowViewModel.cs:537-567 | afterwards start <= end. Nothing graphed gives `MinValue`..`MaxValue`. Otherwise the span runs from the earliest first point to the latest last point, swapped if they are out of order |
| MainWindow.AcceptedStart | IndiaTango/IndiaTango/ViewModels/MainWindowViewModel.cs:1303-1306 | the start becomes the new value or stays the old one. A new value before the end is always taken |
| MainWindow.AcceptedEnd | IndiaTango/IndiaTango/ViewModels/MainWindowViewModel.cs:1324-1327 | the end becomes the new value or stays the old one. A new value after the start is always taken |
| MainWindow.GuardsKeepOrder | IndiaTango/IndiaTango/ViewModels/MainWindowViewModel.cs:1298-1327 | a picker that was set keeps start before end. A picker still at `new DateTime()` takes any value. A rejected value restores the old one |
| MainWindow.MainWindowViewModel.StartTimeChanged | IndiaTango/IndiaTango/ViewModels/MainWindowViewModel.cs:1298-1306 | a null event changes nothing; otherwise the start becomes `AcceptedStart` |
| MainWindow.MainWindowViewModel.EndTimeChanged | IndiaTango/IndiaTango/ViewModels/MainWindowViewModel.cs:1319-1327 | a null event changes nothing; otherwise the end becomes `AcceptedEnd` |
| MainWindow.LastIndexOf | IndiaTango/IndiaTango/ViewModels/MainWindowViewModel.cs:195 | the last position of the character, or -1 when it does not occur |
| MainWindow.SiteName | IndiaTango/IndiaTango/ViewModels/MainWindowViewModel.cs:195 | the `Substring` throws ArgumentOutOfRangeException exactly when fewer than three characters follow the last backslash. Otherwise the name is what lies between the last backslash and the last three characters |
| MainWindow.SiteNameOfSavedFile | IndiaTango/IndiaTango/ViewModels/MainWindowViewModel.cs:195 | the site name of "name.b3", in any directory, is the name, for a name without a backslash |
| MainWindow.SiteNames | IndiaTango/IndiaTango/ViewModels/MainWindowViewModel.cs:195 | every file's site name, in file order; a single bad path throws |
| MainWindow.IndexOf | IndiaTango/IndiaTango/ViewModels/MainWindowViewModel.cs:197 | `Array.IndexOf`: the first position of the name, or -1 exactly when it is absent |
| MainWindow.MainWindowViewModel.ChosenSelectedIndex | IndiaTango/IndiaTango/ViewModels/MainWindowViewModel.cs:206-213 | -1 while no site is open; otherwise the stored index |
| MainWindow.MainWindowViewModel.GetSiteNames | IndiaTango/IndiaTango/ViewModels/MainWindowViewModel.cs:191-201 | returns `SiteNames`. When a site is open and its name is listed, its index is selected; otherwise the selection is unchanged |
| MainWindow.NumberedSiteFilesDistinct | IndiaTango/IndiaTango/ViewModels/MainWindowViewModel.cs:1133 | different numbers give different file names, so the search must end |
| MainWindow.MainWindowViewModel.CreateNewSite | IndiaTango/IndiaTango/ViewModels/MainWindowViewModel.cs:1127-1137 | the chosen name's file does not exist. It is "New Site" when that file is free. Otherwise it is "New Site" followed by the least number from 1 whose file is free |
| MainWindow.MergedUpToEntries | IndiaTango/IndiaTango/ViewModels/MainWindowViewModel.cs:1063-1067 | the copy's readings after the first `n` imported ones are `MergedEntries` of their times |
| MainWindow.MergedEntriesAt | IndiaTango/IndiaTango/ViewModels/MainWindowViewModel.cs:1063-1067 | for times without repeats, a time is held exactly when the current readings or the imported times have it. It holds the imported reading where that was written, and the current one elsewhere |
| MainWindow.MergedUpToAt | IndiaTango/IndiaTango/ViewModels/MainWindowViewModel.cs:1063-1067 | at one time `x`: the copy has a reading exactly when the current readings or the imported ones seen so far do. It is the imported reading where that was written, the current one elsewhere |
| MainWindow.InsertsUpToStep | IndiaTango/IndiaTango/ViewModels/MainWindowViewModel.cs:1063-1067 | one more imported reading inserts something exactly when it is written |
| MainWindow.MergedUpToMeaning | IndiaTango/IndiaTango/ViewModels/MainWindowViewModel.cs:1063-1067 | the copy's times are the current ones plus the imported ones seen so far. Each reading is the imported one where it was written, and the current one elsewhere |
| MainWindow.MergeKeepOld | IndiaTango/IndiaTango/ViewModels/MainWindowViewModel.cs:1016-1067 | keeping old values: the times are the union, current readings survive, and imported readings fill only new times |
| MainWindow.MergeKeepNew | IndiaTango/IndiaTango/ViewModels/MainWindowViewModel.cs:1016-1067 | keeping new values: the times are the union, and imported readings overwrite |
| MainWindow.InsertsMeaning | IndiaTango/IndiaTango/ViewModels/MainWindowViewModel.cs:1060-1067 | keeping old values, something is inserted exactly when the import has a new time. Keeping new values, exactly when the import is non-empty |
| MainWindow.NoInsertKeepsCurrent | IndiaTango/IndiaTango/ViewModels/MainWindowViewModel.cs:1060-1067 | nothing inserted leaves the copy equal to the current readings |
| MainWindow.UnmatchedStep | IndiaTango/IndiaTango/ViewModels/MainWindowViewModel.cs:1034-1039 | one more imported sensor joins the unmatched ones exactly when its choice was cancelled |
| MainWindow.MergeImported | IndiaTango/IndiaTango/ViewModels/MainWindowViewModel.cs:1018-1077 | the dataset's list gains the cancelled sensors, in order. No sensor of the dataset changes its name. Sensors no choice names keep their history |
| MainWindow.MergeChosen | IndiaTango/IndiaTango/ViewModels/MainWindowViewModel.cs:1040-1076 | merging into the sensor with the chosen name changes no sensor's name, and leaves the history of every sensor with another name alone. With no such sensor nothing changes. Otherwise the first sensor with that name ends with `MergedHistory` of its old history and readings and the imported sensor's readings |
| MainWindow.MergedHistory | IndiaTango/IndiaTango/ViewModels/MainWindowViewModel.cs:1056-1075 | when something is inserted, the history gains a state on top that holds the merged readings, and redo is emptied. Otherwise the history is unchanged |
| MainWindow.MergeInto | IndiaTango/IndiaTango/ViewModels/MainWindowViewModel.cs:1056-1075 | reports an insertion exactly when `Inserts` holds. Then one state is added holding the merged readings, with the import reason. Otherwise the history is unchanged |
| MainWindow.Unmatched | IndiaTango/IndiaTango/ViewModels/MainWindowViewModel.cs:1035-1038 | the imported sensors whose dialog was cancelled, in order |
| MainWindow.FirstNamed | IndiaTango/IndiaTango/ViewModels/MainWindowViewModel.cs:1042-1048 | the first sensor with the chosen name, or none exactly when no sensor has it |
| MainWindow.MainWindowViewModel.ImportCompleted | IndiaTango/IndiaTango/ViewModels/MainWindowViewModel.cs:988-1085 | no result does nothing. No dataset throws NullReferenceException. An empty dataset takes the imported list. Otherwise the list gains the cancelled sensors, in order. Sensors no choice names keep their history |

## Left out

- File access is left out. The reader takes the file's lines; `File.Exists` is a boolean or a set of existing paths; the exporter returns the line it would write instead of writing it. `IOException` and its message box are not modelled.
- The clock, `DateTime.Now`, is the parameter `now`, plus `nowText` where it is printed.
- `DateTime.Parse` and `float.Parse` are function parameters that may fail.
- `DateTime.AddMinutes` overflowing past `DateTime.MaxValue` is not modelled: timestamps are unbounded integers.
- Floats are reals: rounding and NaN are not modelled.
- `Char.IsWhiteSpace` is restricted to the Latin-1 range.
- The regular expression in `GuessConventionalNameForSensor` is modelled as a direct left-to-right scan.
- The reader adds each cell to the readings as `Dictionary.Add(time, value)`, which throws on a time already present; the reader swallows that. The source passes a `DataValue` to the `Add` of a `Dictionary<DateTime, float>` (IndiaTango/IndiaTango/Models/SensorState.cs:68), which has no one-argument `Add`.
- Sensors.Sensor.RawData: the source creates the raw state with a six-argument `SensorState` constructor that IndiaTango/IndiaTango/Models/SensorState.cs does not define (it has one-, two- and three-argument constructors). The model reads the call as an empty state stamped with the clock and an empty reason, as the three-argument constructor would give.
- `EndsWith(".csv")` in the reader is culture-sensitive in .NET. The model uses an ordinal suffix test.
- `CompareTo(...) == 0` on sensor names in the import is culture-sensitive in .NET. The model compares names ordinally, by equality of their characters.
- SensorStates.GetMissingTimes, SensorStates.GetOutliers, Datasets.Dataset.GetMissingTimes, Detectors.MissingValuesDetector.GetDetectedValues: require a positive interval. With a zero or negative interval the source loops forever or walks backwards.
- Figures the source reads from elsewhere are parameters: the owning dataset's `DataInterval`, the `ExpectedDataPointCount`, the `IgnoreSensorErrorDetection` and `DefaultErrorThreshold` settings, and the open site's name.
- Detectors.MinMaxDetector.GetDetectedValues: the child above-max and below-min detectors are represented by tags, not objects.
- A sensor's `Colour` is left out: the constructor picks it at random, and it is only used for display.
- A sensor's `Owner` is not a field. `MissingValuesDetector.GetDetectedValues` takes the owning dataset as the parameter `owner`, and `Sensor.IsFailing` takes the figures it reads from the dataset as the parameter `dataset`. The limit setters read `Owner` only for logging, which is left out.
- A sensor's `SummaryType`, description, depth, manufacturer and other metadata are stored as given and not reasoned about.
- Property-change events and logging are left out. So are progress reporting, cancellation and the background worker of the reader and the import.
- The graphable series of both detectors and their settings grids are left out.
- The dialogs are left out; their answers come in as `keepOld` and the per-sensor choices. A choice of `None` means the dialog was cancelled.
- The container lookups that can return null and end the import early are left out.
- After the picker handlers, `SetUpperAndLowerBounds` and `SampleValues` are left out, as are `ShowSiteInformation` after `CreateNewSite` and the rest of the site's API.
- Reading `CurrentState` can create the raw state as a side effect. In the detectors, the dataset and the merge source this is modelled by `CurrentValues`, which reads the readings without the side effect. `Sensor.CurrentState`, `Sensor.RawData`, `Sensor.IsFailing` and `MergeInto` do create the raw state.
- Datasets.Dataset.GetMissingTimes: the source indexes a sensor's readings by position; the model takes the readings in stored order.
- FirstRead, ReadColumns, ReadData, ReadRows, ReadRowAt, ReadRow, CreateSensors, NewSensor, AddCell, SensorGaps, BuildHeader, MergeImported, MergeChosen, MergeInto, AddState and DropOldest split a long method of the source into parts, each with its own contract.
- Exporting.DatasetExporter.Export: the TXT and XLSX branches are empty in the source and return nothing here too.
- MainWindow.MainWindowViewModel.ImportCompleted: the history of each matched sensor is stated per merge by `MergeInto`. It is not composed across the loop, where one sensor can be chosen more than once.
- MainWindow.MergeImported: the history of a chosen sensor is stated per merge by `MergeChosen` and `MergedHistory`. It is not composed across the loop, where one sensor can be chosen more than once.
- Sensors.ConstructorLimits is stated faithfully: with a negative upper limit the constructor ends with the limits (lower, 0), as the source's setter order gives.
- Detectors.MinMaxDetector.CheckIndividualValue is stated faithfully, inverted guard included: a present time gives false and an absent one throws.

## Findings

| source | as written | input that shows it | evidently intended | confidence | as-written member | corrected member |
|---|---|---|---|---|---|---|
| IndiaTango/IndiaTango/Models/DatasetExporter.cs:26 | `format == ExportFormat.CSV` compares references, and the `CSV` property (line 80) returns a new object on every read, so the test is always false | `Export("out.csv", ExportFormat.CSV)` on any dataset writes nothing | the CSV format writes its heading line | not executed | Exporting.DatasetExporter.ExportAsWritten | Exporting.DatasetExporter.Export |

`Exporting.CsvExportWritesNothing` shows the two side by side. For any
non-blank path the as-written export gives no line, and the corrected export
gives `HeaderLine` of the sensor names. The TXT and XLSX tests at lines 46 and
50 have the same defect, but their branches are empty either way.
