/** Exporting a dataset (IndiaTango/Models/DatasetExporter.cs): argument
    checks, the choice of format, and the CSV column-heading line. Writing
    the file itself is left to the caller: an export returns the line it
    would write, or nothing. */
module Exporting {
  import opened Common
  import opened Sensors
  import opened Datasets
  import opened CsvReading

  /** The CSV delimiter. */
  const Delimiter: char := ','

  /** The two time columns that open every CSV heading line. */
  const TimeHeadings: seq<string> := ["dd/mm/yy", "hh:mm"]

  /** The heading line an export writes for sensors named `names`. */
  function HeaderLine(names: seq<string>): string
  {
    Join(TimeHeadings + names, Delimiter)
  }

  /** Each part followed by the delimiter, as the heading loop builds it. */
  function Terminated(parts: seq<string>): string
  {
    if parts == [] then [] else Terminated(parts[..|parts| - 1]) + parts[|parts| - 1] + [Delimiter]
  }

  lemma {:induction false} JoinSnoc(parts: seq<string>, p: string, sep: char)
    requires |parts| >= 1
    ensures Join(parts + [p], sep) == Join(parts, sep) + [sep] + p
  {
    if |parts| > 1 {
      assert (parts + [p])[1..] == parts[1..] + [p];
      JoinSnoc(parts[1..], p, sep);
    } else {
      assert (parts + [p])[1..] == [p];
    }
  }

  /** Stripping the last delimiter from the terminated parts leaves them joined. */
  lemma {:induction false} TerminatedIsJoin(parts: seq<string>)
    requires |parts| >= 1
    ensures Terminated(parts) == Join(parts, Delimiter) + [Delimiter]
  {
    var init := parts[..|parts| - 1];
    if |parts| == 1 {
      assert Terminated(init) == [];
    } else {
      TerminatedIsJoin(init);
      JoinSnoc(init, parts[|parts| - 1], Delimiter);
      assert init + [parts[|parts| - 1]] == parts;
    }
  }

  /** The names of the sensors, in list order. */
  function SensorNames(sensors: seq<Sensor>): (r: seq<string>)
    reads sensors
    ensures |r| == |sensors| && forall i :: 0 <= i < |sensors| ==> r[i] == sensors[i].name
  {
    seq(|sensors|, i requires 0 <= i < |sensors| reads sensors => sensors[i].name)
  }

  /** The heading line has no trailing delimiter: one more sensor adds the
      delimiter and its name at the end. */
  lemma HeaderLineSnoc(names: seq<string>, n: string)
    ensures HeaderLine(names + [n]) == HeaderLine(names) + [Delimiter] + n
  {
    assert TimeHeadings + (names + [n]) == (TimeHeadings + names) + [n];
    JoinSnoc(TimeHeadings + names, n, Delimiter);
  }

  /** With no sensors the line is just the two time headings. */
  lemma HeaderLineNoSensors()
    ensures HeaderLine([]) == "dd/mm/yy,hh:mm"
  {
    assert TimeHeadings + [] == TimeHeadings;
    assert TimeHeadings[1..] == ["hh:mm"];
  }

  /** A heading line read back by the CSV reader gives the sensor names
      again, provided no name holds the delimiter. */
  lemma HeaderReadsBack(names: seq<string>, rows: seq<string>)
    requires forall i :: 0 <= i < |names| ==> Delimiter !in names[i]
    ensures HeaderNames([HeaderLine(names)] + rows) == names
  {
    var parts := TimeHeadings + names;
    assert forall i :: 0 <= i < |parts| ==> Delimiter !in parts[i] by {
      assert Delimiter !in parts[0] && Delimiter !in parts[1];
      assert forall i :: 2 <= i < |parts| ==> parts[i] == names[i - 2];
    }
    SplitJoin(parts, Delimiter);
    assert parts[2..] == names;
  }

  /** `ExportFormat`: a file extension and a display name. */
  class ExportFormat {
    const extension: string
    const name: string

    constructor (extension: string, name: string)
      ensures this.extension == extension && this.name == name
    {
      this.extension := extension;
      this.name := name;
    }

    /** The `CSV`, `TXT` and `XLSX` properties build a new format on every call. */
    static method Csv() returns (f: ExportFormat)
      ensures fresh(f) && f.extension == ".csv" && f.name == "Comma Seperated Value File"
    {
      f := new ExportFormat(".csv", "Comma Seperated Value File");
    }

    static method Txt() returns (f: ExportFormat)
      ensures fresh(f) && f.extension == ".txt" && f.name == "Tab Deliminated Text File"
    {
      f := new ExportFormat(".txt", "Tab Deliminated Text File");
    }

    static method Xlsx() returns (f: ExportFormat)
      ensures fresh(f) && f.extension == ".xlsx" && f.name == "Excel Workbook"
    {
      f := new ExportFormat(".xlsx", "Excel Workbook");
    }

    /** `ToString`: the name, then the extension as a file pattern in brackets. */
    function ToString(): (r: string)
      ensures |r| == |name| + |extension| + 3
      ensures r[..|name|] == name && r[|name|..|name| + 2] == "(*"
      ensures r[|name| + 2..|r| - 1] == extension && r[|r| - 1] == ')'
    {
      name + "(*" + extension + ")"
    }

    /** The CSV format as a value: the extension and name `CSV` builds. */
    predicate IsCsv()
    {
      extension == ".csv" && name == "Comma Seperated Value File"
    }
  }

  class DatasetExporter {
    const data: Dataset

    constructor (data: Dataset)
      ensures this.data == data
    {
      this.data := data;
    }

    /** `new DatasetExporter(data)`: null throws ArgumentNullException. */
    static method Create(data: Dataset?) returns (r: Result<DatasetExporter>)
      ensures r.Err? <==> data == null
      ensures r.Err? ==> r.error == ArgumentNull
      ensures r.Ok? ==> fresh(r.value) && r.value.data == data
    {
      if data == null {
        return Err(ArgumentNull);
      }
      var e := new DatasetExporter(data);
      return Ok(e);
    }

    /** The heading loop: "dd/mm/yy,hh:mm," then each sensor's name and a
        delimiter, then the last delimiter stripped. */
    method BuildHeader() returns (line: string)
      ensures line == HeaderLine(SensorNames(data.sensors))
    {
      var sensors := data.sensors;
      ghost var names := SensorNames(sensors);
      var columnHeadings := "dd/mm/yy" + [Delimiter] + "hh:mm" + [Delimiter];
      assert TimeHeadings[..1] == ["dd/mm/yy"];
      assert columnHeadings == Terminated(TimeHeadings);
      for i := 0 to |sensors|
        invariant columnHeadings == Terminated(TimeHeadings + names[..i])
      {
        assert (TimeHeadings + names[..i + 1])[..|TimeHeadings + names[..i]|] == TimeHeadings + names[..i];
        columnHeadings := columnHeadings + sensors[i].name + [Delimiter];
      }
      assert names[..|sensors|] == names;
      TerminatedIsJoin(TimeHeadings + names);
      columnHeadings := columnHeadings[..|columnHeadings| - 1];
      assert columnHeadings == Join(TimeHeadings + names, Delimiter);
      return columnHeadings;
    }

    /** `Export(filePath, format)` as written: the path and the format are
        checked, and then `format` is compared with `ExportFormat.CSV`. That
        comparison is between references, and the property builds a new
        format, so the CSV branch is never taken and nothing is written. */
    method ExportAsWritten(filePath: Option<string>, format: ExportFormat?) returns (r: Result<Option<string>>)
      ensures filePath.None? || IsBlank(filePath.value) ==> r == Err(ArgumentNull)
      ensures filePath.Some? && !IsBlank(filePath.value) && format == null ==> r == Err(ArgumentNull)
      ensures filePath.Some? && !IsBlank(filePath.value) && format != null ==> r == Ok(None)
    {
      if filePath.None? || IsBlank(filePath.value) {
        return Err(ArgumentNull);
      }
      if format == null {
        return Err(ArgumentNull);
      }
      var csv := ExportFormat.Csv();
      if format == csv {
        var line := BuildHeader();
        return Ok(Some(line));
      }
      return Ok(None);
    }

    /** `Export(filePath, format)` as intended: the CSV format is recognised
        by its value, and its heading line is written. The TXT and XLSX
        branches write nothing. */
    method Export(filePath: Option<string>, format: ExportFormat?) returns (r: Result<Option<string>>)
      ensures filePath.None? || IsBlank(filePath.value) ==> r == Err(ArgumentNull)
      ensures filePath.Some? && !IsBlank(filePath.value) && format == null ==> r == Err(ArgumentNull)
      ensures filePath.Some? && !IsBlank(filePath.value) && format != null ==>
                r == if format.IsCsv() then Ok(Some(HeaderLine(SensorNames(data.sensors)))) else Ok(None)
    {
      if filePath.None? || IsBlank(filePath.value) {
        return Err(ArgumentNull);
      }
      if format == null {
        return Err(ArgumentNull);
      }
      if format.IsCsv() {
        var line := BuildHeader();
        return Ok(Some(line));
      }
      return Ok(None);
    }
  }

  /** The discrepancy: exporting in the format `ExportFormat.CSV` returns,
      as written, writes nothing, while the intended export writes the
      heading line. */
  method CsvExportWritesNothing(exporter: DatasetExporter, filePath: string)
      returns (asWritten: Result<Option<string>>, intended: Result<Option<string>>)
    requires !IsBlank(filePath)
    ensures asWritten == Ok(None)
    ensures intended == Ok(Some(HeaderLine(SensorNames(exporter.data.sensors))))
  {
    var csv := ExportFormat.Csv();
    asWritten := exporter.ExportAsWritten(Some(filePath), csv);
    intended := exporter.Export(Some(filePath), csv);
  }
}
