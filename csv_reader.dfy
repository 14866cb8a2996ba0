/** Reading a dataset's sensors from comma-separated text
    (IndiaTango/Models/CsvReader.cs). The file is given as its lines, the
    clock as `now`, and the two .NET parsers as functions that may fail. */
module CsvReading {
  import opened Common
  import opened ValueTable
  import opened SensorStates
  import opened Sensors
  import H = SensorHistory

  // ----- text helpers ---------------------------------------------------------

  /** `s.EndsWith(suffix)`, compared character by character. */
  predicate EndsWith(s: string, suffix: string)
  {
    |suffix| <= |s| && s[|s| - |suffix|..] == suffix
  }

  /** The white-space characters of the Latin-1 range, as `Char.IsWhiteSpace` lists them. */
  predicate IsWhiteSpace(c: char)
  {
    c == ' ' || c == '\t' || c == '\n' || c == '\r' || c == '\U{0B}' || c == '\U{0C}'
    || c == '\U{85}' || c == '\U{A0}'
  }

  /** `String.IsNullOrWhiteSpace` for a string that is not null. */
  predicate IsBlank(s: string)
  {
    forall i :: 0 <= i < |s| ==> IsWhiteSpace(s[i])
  }

  /** `s.Split(sep)`: the pieces between separators, empty ones included, so
      there is always one more piece than separators. */
  function Split(s: string, sep: char): (r: seq<string>)
    ensures |r| >= 1
    ensures forall i :: 0 <= i < |r| ==> sep !in r[i]
  {
    if s == [] then [""]
    else
      var rest := Split(s[1..], sep);
      if s[0] == sep then [""] + rest else [[s[0]] + rest[0]] + rest[1..]
  }

  /** `String.Join(sep, parts)`. */
  function Join(parts: seq<string>, sep: char): string
    requires |parts| >= 1
  {
    if |parts| == 1 then parts[0] else parts[0] + [sep] + Join(parts[1..], sep)
  }

  /** Splitting and joining again gives back the text. */
  lemma {:induction false} JoinSplit(s: string, sep: char)
    ensures Join(Split(s, sep), sep) == s
  {
    if s != [] {
      var rest := Split(s[1..], sep);
      JoinSplit(s[1..], sep);
      if s[0] == sep {
        assert ([""] + rest)[1..] == rest;
      } else if |rest| > 1 {
        var parts := [[s[0]] + rest[0]] + rest[1..];
        assert parts[1..] == rest[1..];
        assert Join(rest, sep) == rest[0] + [sep] + Join(rest[1..], sep);
        assert s == [s[0]] + s[1..];
      } else {
        assert s == [s[0]] + s[1..];
      }
    }
  }

  lemma {:induction false} SplitAfterPiece(w: string, rest: string, sep: char)
    requires sep !in w
    ensures Split(w + rest, sep) == [w + Split(rest, sep)[0]] + Split(rest, sep)[1..]
  {
    if w == [] {
      assert w + rest == rest;
      assert w + Split(rest, sep)[0] == Split(rest, sep)[0];
    } else {
      SplitAfterPiece(w[1..], rest, sep);
      assert (w + rest)[1..] == w[1..] + rest;
      assert w[0] != sep by { assert w[0] in w; }
      assert [w[0]] + (w[1..] + Split(rest, sep)[0]) == w + Split(rest, sep)[0];
    }
  }

  /** Pieces without the separator, joined and split again, come back as they were. */
  lemma {:induction false} SplitJoin(parts: seq<string>, sep: char)
    requires |parts| >= 1
    requires forall i :: 0 <= i < |parts| ==> sep !in parts[i]
    ensures Split(Join(parts, sep), sep) == parts
  {
    if |parts| == 1 {
      SplitAfterPiece(parts[0], [], sep);
      assert parts[0] + [] == parts[0];
    } else {
      var tail := Join(parts[1..], sep);
      SplitJoin(parts[1..], sep);
      assert parts[0] + [sep] + tail == parts[0] + ([sep] + tail);
      SplitAfterPiece(parts[0], [sep] + tail, sep);
      assert ([sep] + tail)[1..] == tail;
      assert Split([sep] + tail, sep) == [""] + parts[1..];
      assert parts[0] + "" == parts[0];
    }
  }

  // ----- the row rules ----------------------------------------------------------

  /** A data row that is read in full: as many fields as the header, and a
      timestamp that `DateTime.Parse` accepts in fields 0 and 1 joined by a space. */
  predicate RowOk(row: string, width: int, parseTime: string -> Option<Timestamp>)
  {
    var cells := Split(row, ',');
    |cells| == width && width >= 2 && parseTime(cells[0] + " " + cells[1]).Some?
  }

  /** The index of the first data row that aborts the read, or the number of rows. */
  function FirstBadRow(rows: seq<string>, width: int, parseTime: string -> Option<Timestamp>): (r: nat)
    ensures r <= |rows|
    ensures forall k :: 0 <= k < r ==> RowOk(rows[k], width, parseTime)
    ensures r < |rows| ==> !RowOk(rows[r], width, parseTime)
  {
    if rows == [] then 0
    else if !RowOk(rows[0], width, parseTime) then 0
    else 1 + FirstBadRow(rows[1..], width, parseTime)
  }

  /** The reading field `i` of a row at `time` contributes: none for a
      blank field or one `float.Parse` rejects. */
  function Cell(cells: seq<string>, i: nat, time: Timestamp, parseReading: string -> Option<Reading>): Option<(Timestamp, Reading)>
    requires i < |cells|
  {
    if IsBlank(cells[i]) then None
    else match parseReading(cells[i])
      case None => None
      case Some(v) => Some((time, v))
  }

  /** The reading a row contributes to sensor `col` (header column `col + 2`):
      none for a row not read in full, or for its cell as `Cell` says. */
  function CellEntry(row: string, width: int, col: nat, parseTime: string -> Option<Timestamp>,
                     parseReading: string -> Option<Reading>): Option<(Timestamp, Reading)>
    requires col + 2 < width
  {
    if !RowOk(row, width, parseTime) then None
    else
      var cells := Split(row, ',');
      Cell(cells, col + 2, parseTime(cells[0] + " " + cells[1]).value, parseReading)
  }

  /** The readings sensor `col` holds after `rows`: each row's cell is added
      unless its timestamp is already there (the add throws, and the throw is
      swallowed). */
  function ColumnTable(rows: seq<string>, width: int, col: nat, parseTime: string -> Option<Timestamp>,
                       parseReading: string -> Option<Reading>): Values
    requires col + 2 < width
  {
    if rows == [] then Empty
    else Step(ColumnTable(rows[..|rows| - 1], width, col, parseTime, parseReading),
              CellEntry(rows[|rows| - 1], width, col, parseTime, parseReading))
  }

  /** One cell's `Values.Add`, a duplicate timestamp being skipped. */
  function Step(t: Values, e: Option<(Timestamp, Reading)>): (r: Values)
    ensures e.None? ==> r == t
    ensures e.Some? && e.value.0 in t.entries ==> r == t
    ensures e.Some? && e.value.0 !in t.entries ==> r == Add(t, e.value.0, e.value.1).value
  {
    match e
    case None => t
    case Some(p) => if p.0 in t.entries then t else Add(t, p.0, p.1).value
  }

  /** Reading row `n` in full moves each sensor on by that row's cell. */
  lemma RowStep(rows: seq<string>, n: nat, width: int, col: nat, parseTime: string -> Option<Timestamp>,
                parseReading: string -> Option<Reading>, cells: seq<string>, time: Timestamp)
    requires col + 2 < width && 1 <= n <= |rows|
    requires Split(rows[n - 1], ',') == cells && |cells| == width
    requires parseTime(cells[0] + " " + cells[1]) == Some(time)
    ensures ColumnTable(rows[..n], width, col, parseTime, parseReading)
            == Step(ColumnTable(rows[..n - 1], width, col, parseTime, parseReading), Cell(cells, col + 2, time, parseReading))
  {
    assert rows[..n][..n - 1] == rows[..n - 1];
    assert rows[..n][n - 1] == rows[n - 1];
  }

  /** Each row's contribution to sensor `col`, row by row. */
  function CellEntries(rows: seq<string>, width: int, col: nat, parseTime: string -> Option<Timestamp>,
                       parseReading: string -> Option<Reading>): (es: seq<Option<(Timestamp, Reading)>>)
    requires col + 2 < width
    ensures |es| == |rows|
    ensures forall k :: 0 <= k < |rows| ==> es[k] == CellEntry(rows[k], width, col, parseTime, parseReading)
  {
    seq(|rows|, k requires 0 <= k < |rows| => CellEntry(rows[k], width, col, parseTime, parseReading))
  }

  /** Adding the entries one by one, a timestamp already present being skipped. */
  function FoldEntries(es: seq<Option<(Timestamp, Reading)>>): Values
  {
    if es == [] then Empty
    else
      Step(FoldEntries(es[..|es| - 1]), es[|es| - 1])
  }

  lemma {:induction false} ColumnTableIsFold(rows: seq<string>, width: int, col: nat,
                                             parseTime: string -> Option<Timestamp>,
                                             parseReading: string -> Option<Reading>)
    requires col + 2 < width
    ensures ColumnTable(rows, width, col, parseTime, parseReading)
            == FoldEntries(CellEntries(rows, width, col, parseTime, parseReading))
  {
    if rows != [] {
      var init := rows[..|rows| - 1];
      ColumnTableIsFold(init, width, col, parseTime, parseReading);
      var es := CellEntries(rows, width, col, parseTime, parseReading);
      assert es[..|es| - 1] == CellEntries(init, width, col, parseTime, parseReading);
    }
  }

  /** Entry `k` is the first one at time `x`. */
  predicate FirstAt(es: seq<Option<(Timestamp, Reading)>>, x: Timestamp, k: nat)
    requires k < |es|
  {
    && es[k].Some? && es[k].value.0 == x
    && forall j :: 0 <= j < k ==> !(es[j].Some? && es[j].value.0 == x)
  }

  lemma {:induction false} FoldEntriesMeaning(es: seq<Option<(Timestamp, Reading)>>, x: Timestamp)
    ensures var t := FoldEntries(es);
            && (x in t.entries <==> exists k :: 0 <= k < |es| && FirstAt(es, x, k))
            && forall k :: 0 <= k < |es| && FirstAt(es, x, k) ==> t.entries[x] == es[k].value.1
  {
    if es != [] {
      var init := es[..|es| - 1];
      var n := |es| - 1;
      FoldEntriesMeaning(init, x);
      forall k | 0 <= k < n ensures FirstAt(es, x, k) <==> FirstAt(init, x, k) {
        assert es[k] == init[k];
        assert forall j :: 0 <= j < k ==> es[j] == init[j];
      }
      var t := FoldEntries(init);
      if x in t.entries {
        var k :| 0 <= k < n && FirstAt(init, x, k);
        assert es[k] == init[k];
        assert !FirstAt(es, x, n);
      } else {
        forall k | 0 <= k < n ensures !FirstAt(es, x, k) { }
        if es[n].Some? && es[n].value.0 == x {
          forall j | 0 <= j < n ensures !(es[j].Some? && es[j].value.0 == x) {
            assert es[j] == init[j];
            if es[j].Some? && es[j].value.0 == x {
              LaterFirst(init, x, j);
            }
          }
          assert FirstAt(es, x, n);
        }
      }
    }
  }

  /** An entry at `x` means some entry, at or before it, is the first at `x`. */
  lemma LaterFirst(es: seq<Option<(Timestamp, Reading)>>, x: Timestamp, j: nat)
    requires j < |es| && es[j].Some? && es[j].value.0 == x
    ensures exists k :: 0 <= k <= j && FirstAt(es, x, k)
    decreases j
  {
    if !FirstAt(es, x, j) {
      var i :| 0 <= i < j && es[i].Some? && es[i].value.0 == x;
      LaterFirst(es, x, i);
    }
  }

  /** A sensor holds a reading at `x` exactly when some row has a cell for it
      at `x`, and the reading is that of the first such row: a later row with
      the same timestamp does not overwrite it. */
  lemma ColumnTableMeaning(rows: seq<string>, width: int, col: nat,
                           parseTime: string -> Option<Timestamp>,
                           parseReading: string -> Option<Reading>, x: Timestamp)
    requires col + 2 < width
    ensures var t := ColumnTable(rows, width, col, parseTime, parseReading);
            var es := CellEntries(rows, width, col, parseTime, parseReading);
            && (x in t.entries <==> exists k :: 0 <= k < |rows| && FirstAt(es, x, k))
            && forall k :: 0 <= k < |rows| && FirstAt(es, x, k) ==> t.entries[x] == es[k].value.1
  {
    ColumnTableIsFold(rows, width, col, parseTime, parseReading);
    FoldEntriesMeaning(CellEntries(rows, width, col, parseTime, parseReading), x);
  }

  /** The readings of each of the `n` sensors after `rows`. */
  function Tables(rows: seq<string>, width: int, n: nat, parseTime: string -> Option<Timestamp>,
                  parseReading: string -> Option<Reading>): (vs: seq<Values>)
    requires n + 2 <= width
    ensures |vs| == n && forall k :: 0 <= k < n ==> vs[k] == ColumnTable(rows, width, k, parseTime, parseReading)
  {
    seq(n, k requires 0 <= k < n => ColumnTable(rows, width, k, parseTime, parseReading))
  }

  /** `n` empty tables. */
  function Empties(n: nat): (vs: seq<Values>)
    ensures |vs| == n && forall k :: 0 <= k < n ==> vs[k] == Empty
  {
    seq(n, _ => Empty)
  }

  /** Before any row every sensor is empty. */
  lemma NoRowsRead(width: int, n: nat, parseTime: string -> Option<Timestamp>, parseReading: string -> Option<Reading>)
    requires n + 2 <= width
    ensures Tables([], width, n, parseTime, parseReading) == Empties(n)
  {
  }

  /** Each sensor's readings moved on by its cell of one row. */
  function StepAll(before: seq<Values>, cells: seq<string>, time: Timestamp,
                   parseReading: string -> Option<Reading>): (vs: seq<Values>)
    requires |cells| == |before| + 2
    ensures |vs| == |before|
    ensures forall k :: 0 <= k < |before| ==> vs[k] == Step(before[k], Cell(cells, k + 2, time, parseReading))
  {
    seq(|before|, k requires 0 <= k < |before| => Step(before[k], Cell(cells, k + 2, time, parseReading)))
  }

  /** Reading row `n` in full moves every sensor on by its cell of that row. */
  lemma TablesStep(rows: seq<string>, n: nat, width: int, parseTime: string -> Option<Timestamp>,
                   parseReading: string -> Option<Reading>, cells: seq<string>, time: Timestamp)
    requires width >= 2 && 1 <= n <= |rows|
    requires Split(rows[n - 1], ',') == cells && |cells| == width
    requires parseTime(cells[0] + " " + cells[1]) == Some(time)
    ensures Tables(rows[..n], width, width - 2, parseTime, parseReading)
            == StepAll(Tables(rows[..n - 1], width, width - 2, parseTime, parseReading), cells, time, parseReading)
  {
    var before := Tables(rows[..n - 1], width, width - 2, parseTime, parseReading);
    forall k | 0 <= k < width - 2
      ensures ColumnTable(rows[..n], width, k, parseTime, parseReading) == Step(before[k], Cell(cells, k + 2, time, parseReading))
    {
      RowStep(rows, n, width, k, parseTime, parseReading, cells, time);
    }
  }

  /** The first `n` sensors of `arr` are as the header made them, sensor
      `k` holding `vs[k]`. */
  ghost predicate Hold(arr: array<Sensor?>, names: seq<string>, now: Timestamp, vs: seq<Values>, n: nat)
    reads arr, set k | 0 <= k < arr.Length :: arr[k]
  {
    && n <= arr.Length && n <= |names| && n <= |vs|
    && forall k :: 0 <= k < n ==> Holds(arr[k], names[k], now, vs[k])
  }

  // ----- the header rules -------------------------------------------------------

  /** The index of the first sensor column `new Sensor(name, null)` rejects
      (an empty name, or a default error threshold below 1), or their number. */
  function FirstBadColumn(cols: seq<string>, defaultErrorThreshold: int): (r: nat)
    ensures r <= |cols|
    ensures forall k :: 0 <= k < r ==> cols[k] != "" && defaultErrorThreshold >= 1
    ensures r < |cols| ==> cols[r] == "" || defaultErrorThreshold < 1
  {
    if cols == [] || cols[0] == "" || defaultErrorThreshold < 1 then 0
    else 1 + FirstBadColumn(cols[1..], defaultErrorThreshold)
  }

  /** The sensor names of the header: its fields after the two time fields. */
  function HeaderNames(lines: seq<string>): seq<string>
  {
    if lines == [] then [] else var names := Split(lines[0], ','); if |names| < 2 then [] else names[2..]
  }

  /** The exception a first read throws, if any: no header line; a header
      of one field (a negative array size); a sensor the constructor
      rejects; a data row with the wrong number of fields or a timestamp
      that does not parse. */
  function ReadError(lines: seq<string>, parseTime: string -> Option<Timestamp>, defaultErrorThreshold: int): Option<Error>
  {
    if lines == [] then Some(Format)
    else
      var names := Split(lines[0], ',');
      if |names| < 2 then Some(Overflow)
      else
        var cols := names[2..];
        var j := FirstBadColumn(cols, defaultErrorThreshold);
        if j < |cols| then Some(if cols[j] == "" then ArgumentNull else Argument)
        else if FirstBadRow(lines[1..], |names|, parseTime) < |lines| - 1 then Some(Format)
        else None
  }

  /** How many sensors a first read creates before it stops. */
  function Created(lines: seq<string>, defaultErrorThreshold: int): nat
  {
    FirstBadColumn(HeaderNames(lines), defaultErrorThreshold)
  }

  /** How many data rows a first read takes in. */
  function RowsRead(lines: seq<string>, parseTime: string -> Option<Timestamp>, defaultErrorThreshold: int): nat
  {
    if lines == [] || |Split(lines[0], ',')| < 2 then 0
    else if Created(lines, defaultErrorThreshold) < |HeaderNames(lines)| then 0
    else FirstBadRow(lines[1..], |Split(lines[0], ',')|, parseTime)
  }

  /** A sensor as the header made it, holding `values`: named after its
      column, no unit, limits 0 to 100, one state pushed at `now`, nothing
      to redo. */
  ghost predicate Holds(s: Sensor?, name: string, now: Timestamp, values: Values)
    reads s
  {
    && s != null && s.Valid() && s.name == name && s.unit == None
    && s.CurrentLimits() == Limits(0.0, 100.0)
    && |s.undoStack| == 1 && s.undoStack[0].editTimestamp == now && s.redoStack == []
    && s.CurrentValues() == values
  }

  /** What a first read leaves: one slot per header sensor; the error it
      throws, or all the slots; distinct sensors; the first `Created` slots
      hold sensors as the header made them, with every cell of the rows
      read in, and the rest are null. */
  ghost predicate Read(arr: array<Sensor?>, r: Result<seq<Sensor?>>, lines: seq<string>,
                       parseTime: string -> Option<Timestamp>, parseReading: string -> Option<Reading>,
                       now: Timestamp, defaultErrorThreshold: int)
    reads arr, set k | 0 <= k < arr.Length :: arr[k]
  {
    var created := Created(lines, defaultErrorThreshold);
    var names := HeaderNames(lines);
    && arr.Length == |names| && created <= |names|
    && r == (if ReadError(lines, parseTime, defaultErrorThreshold).None? then Ok(arr[..])
             else Err(ReadError(lines, parseTime, defaultErrorThreshold).value))
    && (forall a, b :: 0 <= a < b < arr.Length ==> arr[a] == null || arr[a] != arr[b])
    && (forall k :: created <= k < arr.Length ==> arr[k] == null)
    && (|lines| > 0 ==>
          Hold(arr, names, now, Tables(lines[1..][..RowsRead(lines, parseTime, defaultErrorThreshold)],
                                       |names| + 2, |names|, parseTime, parseReading), created))
  }

  class CsvReader {
    const fileName: string
    /** The sensors of the first read, kept for later ones; null before it. */
    var sensors: array?<Sensor?>

    constructor (fileName: string)
      requires EndsWith(fileName, ".csv")
      ensures this.fileName == fileName && sensors == null
    {
      this.fileName := fileName;
      sensors := null;
    }

    /** `new CSVReader(fileName)`: a name not ending in ".csv", or a file that
        does not exist, throws ArgumentException. */
    static method Create(fileName: string, fileExists: bool) returns (r: Result<CsvReader>)
      ensures r.Err? <==> !EndsWith(fileName, ".csv") || !fileExists
      ensures r.Err? ==> r.error == Argument
      ensures r.Ok? ==> fresh(r.value) && r.value.fileName == fileName && r.value.sensors == null
    {
      if !EndsWith(fileName, ".csv") {
        return Err(Argument);
      }
      if !fileExists {
        return Err(Argument);
      }
      var c := new CsvReader(fileName);
      return Ok(c);
    }

    /** `ReadSensors()` over the file's `lines`. A later call returns the
        sensors of the first, whatever state that one left them in. */
    method ReadSensors(lines: seq<string>, parseTime: string -> Option<Timestamp>,
                       parseReading: string -> Option<Reading>, now: Timestamp, defaultErrorThreshold: int)
      returns (r: Result<seq<Sensor?>>)
      modifies this`sensors
      ensures old(sensors) != null ==> sensors == old(sensors) && r == Ok(sensors[..])
      ensures old(sensors) == null ==> && sensors != null && fresh(sensors)
                                       && Read(sensors, r, lines, parseTime, parseReading, now, defaultErrorThreshold)
      ensures old(sensors) == null ==>
                forall k :: 0 <= k < Created(lines, defaultErrorThreshold) <= sensors.Length ==> fresh(sensors[k])
    {
      if sensors != null {
        return Ok(sensors[..]);
      }
      sensors := new Sensor?[0];
      var arr;
      arr, r := FirstRead(lines, parseTime, parseReading, now, defaultErrorThreshold);
      sensors := arr;
    }

    /** The first read, from `sensors = new Sensor[0]` on: `arr` is the array
        `sensors` holds when the read returns or throws. */
    static method FirstRead(lines: seq<string>, parseTime: string -> Option<Timestamp>,
                            parseReading: string -> Option<Reading>, now: Timestamp, defaultErrorThreshold: int)
      returns (arr: array<Sensor?>, r: Result<seq<Sensor?>>)
      ensures fresh(arr) && Read(arr, r, lines, parseTime, parseReading, now, defaultErrorThreshold)
      ensures forall k :: 0 <= k < Created(lines, defaultErrorThreshold) <= arr.Length ==> fresh(arr[k])
    {
      if |lines| == 0 {
        arr := new Sensor?[0];
        return arr, Err(Format);
      }
      var names := Split(lines[0], ',');
      if |names| - 2 < 0 {
        arr := new Sensor?[0];
        return arr, Err(Overflow);
      }
      arr, r := ReadColumns(lines, names, parseTime, parseReading, now, defaultErrorThreshold);
    }

    /** The first read once the header has split into `names`, at least two
        of them: the header loop, then the row loop. */
    static method ReadColumns(lines: seq<string>, names: seq<string>, parseTime: string -> Option<Timestamp>,
                              parseReading: string -> Option<Reading>, now: Timestamp, defaultErrorThreshold: int)
      returns (arr: array<Sensor?>, r: Result<seq<Sensor?>>)
      requires |lines| > 0 && names == Split(lines[0], ',') && |names| >= 2
      ensures fresh(arr) && Read(arr, r, lines, parseTime, parseReading, now, defaultErrorThreshold)
      ensures forall k :: 0 <= k < Created(lines, defaultErrorThreshold) <= arr.Length ==> fresh(arr[k])
    {
      var cols := names[2..];
      assert HeaderNames(lines) == cols;
      var error;
      arr, error := CreateSensors(cols, now, defaultErrorThreshold);
      if error.Some? {
        assert RowsRead(lines, parseTime, defaultErrorThreshold) == 0;
        assert lines[1..][..0] == [];
        NoRowsRead(|cols| + 2, |cols|, parseTime, parseReading);
        return arr, Err(error.value);
      }
      r := ReadData(arr, cols, lines, parseTime, parseReading, now, defaultErrorThreshold);
    }

    /** Every sensor was made: the rows are read into them, and the read
        fails with FormatException if a row is bad. */
    static method ReadData(arr: array<Sensor?>, cols: seq<string>, lines: seq<string>,
                           parseTime: string -> Option<Timestamp>, parseReading: string -> Option<Reading>,
                           now: Timestamp, defaultErrorThreshold: int)
      returns (r: Result<seq<Sensor?>>)
      requires |lines| > 0 && |Split(lines[0], ',')| == |cols| + 2 && HeaderNames(lines) == cols
      requires Created(lines, defaultErrorThreshold) == |cols|
      requires arr.Length == |cols| && Hold(arr, cols, now, Empties(|cols|), |cols|)
      requires forall a, b :: 0 <= a < b < arr.Length ==> arr[a] == null || arr[a] != arr[b]
      modifies set k | 0 <= k < arr.Length :: arr[k]
      ensures Read(arr, r, lines, parseTime, parseReading, now, defaultErrorThreshold)
    {
      var bad := ReadRows(arr, cols, lines[1..], parseTime, parseReading, now);
      assert RowsRead(lines, parseTime, defaultErrorThreshold) == bad;
      if bad < |lines| - 1 {
        return Err(Format);
      }
      return Ok(arr[..]);
    }

    /** The row loop: each data row in turn until one has the wrong number of
        fields or a timestamp that does not parse (the read then throws
        FormatException); `bad` is the index of that row, or the number of rows. */
    static method ReadRows(arr: array<Sensor?>, cols: seq<string>, rows: seq<string>,
                           parseTime: string -> Option<Timestamp>, parseReading: string -> Option<Reading>,
                           now: Timestamp)
      returns (bad: nat)
      requires arr.Length == |cols|
      requires Hold(arr, cols, now, Empties(|cols|), |cols|)
      requires forall a, b :: 0 <= a < b < arr.Length ==> arr[a] != arr[b]
      modifies set k | 0 <= k < arr.Length :: arr[k]
      ensures bad == FirstBadRow(rows, |cols| + 2, parseTime)
      ensures Hold(arr, cols, now, Tables(rows[..bad], |cols| + 2, |cols|, parseTime, parseReading), |cols|)
    {
      var width := |cols| + 2;
      var row := 0;
      assert rows[..0] == [];
      NoRowsRead(width, |cols|, parseTime, parseReading);
      while row < |rows|
        invariant 0 <= row <= |rows|
        invariant Hold(arr, cols, now, Tables(rows[..row], width, |cols|, parseTime, parseReading), |cols|)
        invariant row <= FirstBadRow(rows, width, parseTime)
      {
        var values := Split(rows[row], ',');
        if |values| != width {
          assert FirstBadRow(rows, width, parseTime) == row by {
            assert !RowOk(rows[row], width, parseTime);
          }
          return row;
        }
        var time := parseTime(values[0] + " " + values[1]);
        if time.None? {
          assert FirstBadRow(rows, width, parseTime) == row by {
            assert !RowOk(rows[row], width, parseTime);
          }
          return row;
        }
        assert row + 1 <= FirstBadRow(rows, width, parseTime) by {
          assert RowOk(rows[row], width, parseTime);
        }
        ReadRowAt(arr, cols, rows, row, values, time.value, parseTime, parseReading, now);
        row := row + 1;
      }
      assert rows[..|rows|] == rows;
      return |rows|;
    }

    /** One pass of the row loop on a row that is well formed: its cells are
        read, and the sensors then hold the tables of one more row. */
    static method ReadRowAt(arr: array<Sensor?>, cols: seq<string>, rows: seq<string>, row: nat,
                            values: seq<string>, time: Timestamp,
                            parseTime: string -> Option<Timestamp>, parseReading: string -> Option<Reading>,
                            now: Timestamp)
      requires row < |rows| && arr.Length == |cols|
      requires values == Split(rows[row], ',') && |values| == |cols| + 2
      requires parseTime(values[0] + " " + values[1]) == Some(time)
      requires Hold(arr, cols, now, Tables(rows[..row], |cols| + 2, |cols|, parseTime, parseReading), |cols|)
      requires forall a, b :: 0 <= a < b < arr.Length ==> arr[a] != arr[b]
      modifies set k | 0 <= k < arr.Length :: arr[k]
      ensures Hold(arr, cols, now, Tables(rows[..row + 1], |cols| + 2, |cols|, parseTime, parseReading), |cols|)
    {
      var width := |cols| + 2;
      ReadRow(arr, cols, values, time, parseReading, now, Tables(rows[..row], width, |cols|, parseTime, parseReading));
      TablesStep(rows, row + 1, width, parseTime, parseReading, values, time);
      assert rows[..row + 1][..row] == rows[..row];
    }

    /** The header loop: `new Sensor(name, null)` for each sensor column, with
        an empty state pushed onto each, until a constructor throws. */
    static method CreateSensors(cols: seq<string>, now: Timestamp, defaultErrorThreshold: int)
      returns (arr: array<Sensor?>, error: Option<Error>)
      ensures fresh(arr) && arr.Length == |cols|
      ensures var j := FirstBadColumn(cols, defaultErrorThreshold);
              error == if j < |cols| then Some(if cols[j] == "" then ArgumentNull else Argument) else None
      ensures forall k :: 0 <= k < FirstBadColumn(cols, defaultErrorThreshold) ==> fresh(arr[k])
      ensures forall k :: FirstBadColumn(cols, defaultErrorThreshold) <= k < arr.Length ==> arr[k] == null
      ensures Hold(arr, cols, now, Empties(|cols|), FirstBadColumn(cols, defaultErrorThreshold))
      ensures forall a, b :: 0 <= a < b < arr.Length ==> arr[a] == null || arr[a] != arr[b]
    {
      arr := new Sensor?[|cols|](_ => null);
      var i := 0;
      while i < |cols|
        invariant 0 <= i <= |cols|
        invariant forall k :: 0 <= k < i ==> fresh(arr[k]) && Holds(arr[k], cols[k], now, Empty)
        invariant forall k :: i <= k < arr.Length ==> arr[k] == null
        invariant forall k :: 0 <= k < i ==> cols[k] != ""
        invariant i > 0 ==> defaultErrorThreshold >= 1
        invariant forall a, b :: 0 <= a < b < i ==> arr[a] != arr[b]
      {
        var made := NewSensor(cols[i], now, defaultErrorThreshold);
        if made.Err? {
          assert FirstBadColumn(cols, defaultErrorThreshold) == i by {
            FirstBadColumnAt(cols, defaultErrorThreshold, i);
          }
          assert Hold(arr, cols, now, Empties(|cols|), i);
          return arr, Some(made.error);
        }
        arr[i] := made.value;
        i := i + 1;
      }
      assert FirstBadColumn(cols, defaultErrorThreshold) == |cols| by {
        FirstBadColumnAt(cols, defaultErrorThreshold, |cols|);
      }
      assert Hold(arr, cols, now, Empties(|cols|), |cols|);
      return arr, None;
    }

    /** The body of the header loop: `new Sensor(name, null)`, then an
        empty state pushed at `now`. */
    static method NewSensor(name: string, now: Timestamp, defaultErrorThreshold: int) returns (made: Result<Sensor>)
      ensures made.Err? <==> name == "" || defaultErrorThreshold < 1
      ensures made.Err? ==> made.error == if name == "" then ArgumentNull else Argument
      ensures made.Ok? ==> fresh(made.value) && Holds(made.value, name, now, Empty)
    {
      made := Sensor.CreateNamed(name, None, defaultErrorThreshold);
      if made.Ok? {
        made.value.AddState(EmptyState(now));
        assert made.value.undoStack == [EmptyState(now)] && made.value.redoStack == [];
      }
    }

    /** One data row read in full: cell `c` of each sensor column goes to
        sensor `c - 2`, unless it is blank or does not parse, or its
        timestamp is already there. */
    static method ReadRow(arr: array<Sensor?>, cols: seq<string>, values: seq<string>, time: Timestamp,
                          parseReading: string -> Option<Reading>, now: Timestamp, ghost before: seq<Values>)
      requires arr.Length == |cols| == |before| && |values| == |cols| + 2 && Hold(arr, cols, now, before, |cols|)
      requires forall a, b :: 0 <= a < b < arr.Length ==> arr[a] != arr[b]
      modifies set k | 0 <= k < arr.Length :: arr[k]
      ensures Hold(arr, cols, now, StepAll(before, values, time, parseReading), |cols|)
    {
      var c := 2;
      while c < |values|
        invariant 2 <= c <= |values|
        invariant forall k :: 0 <= k < c - 2 ==>
                    Holds(arr[k], cols[k], now, Step(before[k], Cell(values, k + 2, time, parseReading)))
        invariant forall k :: c - 2 <= k < arr.Length ==> Holds(arr[k], cols[k], now, before[k])
      {
        AddCell(arr[c - 2], cols[c - 2], values, c, time, parseReading, now, before[c - 2]);
        c := c + 1;
      }
    }
  }

  /** The body of the cell loop: `Values.Add` of the parsed cell, inside a
      catch-all, unless the cell is blank. */
  method AddCell(s: Sensor, name: string, values: seq<string>, c: nat, time: Timestamp,
                 parseReading: string -> Option<Reading>, now: Timestamp, ghost before: Values)
    requires c < |values| && Holds(s, name, now, before)
    modifies s`undoStack, s`rawData
    ensures Holds(s, name, now, Step(before, Cell(values, c, time, parseReading)))
  {
    if !IsBlank(values[c]) {
      var v := parseReading(values[c]);
      if v.Some? {
        var _ := s.AddCurrentValue(time, v.value, now);
      }
    }
  }

  lemma {:induction false} FirstBadColumnAt(cols: seq<string>, defaultErrorThreshold: int, j: nat)
    requires j <= |cols|
    requires forall k :: 0 <= k < j ==> cols[k] != ""
    requires j > 0 ==> defaultErrorThreshold >= 1
    requires j < |cols| ==> cols[j] == "" || defaultErrorThreshold < 1
    ensures FirstBadColumn(cols, defaultErrorThreshold) == j
  {
    if j > 0 {
      assert cols[0] != "" && defaultErrorThreshold >= 1;
      FirstBadColumnAt(cols[1..], defaultErrorThreshold, j - 1);
    }
  }


}
