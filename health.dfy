/** The health logger: one row per sample with the system readings and the four throttle flags,
    written as a comma-separated line to a local log file and to a shared copy of it. */
module Health {
  import opened Wrappers
  import opened TextSplit
  import Throttle

  /** The header of the log files. */
  const FileColumns: seq<string> := [
    "datetime", "cpu_percent", "memory_percent", "camera_cpu_percent", "camera_memory",
    "wfb_cpu_percent", "wfb_memory", "temperature", "cpu_clock", "cpu_voltage",
    "under_voltage", "arm_freq_capped", "throttled", "soft_temp_limit"]

  /** The ten sampled readings, each as `str` renders it (a missing reading renders as "None").
      Sampling them is operating-system I/O. */
  datatype Readings = Readings(
    datetime: string, cpuPercent: string, memoryPercent: string,
    cameraCpuPercent: string, cameraMemory: string, wfbCpuPercent: string, wfbMemory: string,
    temperature: string, cpuClock: string, cpuVoltage: string)

  /** The tuple `log_health` returns: the readings followed by the four throttle flags. */
  datatype HealthRow = HealthRow(
    readings: Readings,
    underVoltage: bool, armFreqCapped: bool, throttled: bool, softTempLimit: bool)

  /** `log_health`, given the readings and the text of the throttle report. The throttle
      decoding's error, if any, propagates. */
  function LogHealth(readings: Readings, throttleOutput: string): (r: Result<HealthRow>)
    ensures r.Ok? <==> Throttle.Reasons(throttleOutput).Ok?
    ensures r.Err? ==> r.error == Throttle.Reasons(throttleOutput).error
    ensures r.Ok? ==> r.value.readings == readings
    ensures r.Ok? ==> [r.value.underVoltage, r.value.armFreqCapped, r.value.throttled,
                       r.value.softTempLimit] == Throttle.Reasons(throttleOutput).value
  {
    match Throttle.Reasons(throttleOutput)
    case Err(e) => Err(e)
    case Ok(f) => Ok(HealthRow(readings, f[0], f[1], f[2], f[3]))
  }

  /** `str` of a bool. */
  function BoolText(b: bool): string
  {
    if b then "True" else "False"
  }

  /** `map(str, data)`: the fourteen fields of a row, in column order. */
  function RowFields(row: HealthRow): (r: seq<string>)
    ensures |r| == |FileColumns|
  {
    var d := row.readings;
    [d.datetime, d.cpuPercent, d.memoryPercent, d.cameraCpuPercent, d.cameraMemory,
     d.wfbCpuPercent, d.wfbMemory, d.temperature, d.cpuClock, d.cpuVoltage,
     BoolText(row.underVoltage), BoolText(row.armFreqCapped), BoolText(row.throttled),
     BoolText(row.softTempLimit)]
  }

  /** One line of the log: the fields joined by "," and a newline. */
  function CsvLine(fields: seq<string>): (line: string)
    ensures |line| >= 1 && line[|line| - 1] == '\n'
  {
    Join(fields, ",") + "\n"
  }

  /** Every field lands under its own column: the column names and a row's fields line up one to
      one, and the flags follow the order of the throttle bits. */
  lemma ColumnsLineUp(row: HealthRow)
    ensures |RowFields(row)| == |FileColumns| == 14
    ensures FileColumns[7] == "temperature" && RowFields(row)[7] == row.readings.temperature
    ensures FileColumns[10] == "under_voltage" && RowFields(row)[10] == BoolText(row.underVoltage)
    ensures FileColumns[11] == "arm_freq_capped" && RowFields(row)[11] == BoolText(row.armFreqCapped)
    ensures FileColumns[12] == "throttled" && RowFields(row)[12] == BoolText(row.throttled)
    ensures FileColumns[13] == "soft_temp_limit" && RowFields(row)[13] == BoolText(row.softTempLimit)
  {
  }

  /** A string without the character `c` holds no occurrence of the separator [c]. */
  lemma NoCharNoSep(s: string, c: char)
    requires forall j :: 0 <= j < |s| ==> s[j] != c
    ensures NoSep(s, [c])
  {
    forall j | 0 <= j <= |s|
      ensures !OccursAt(s, [c], j)
    {
      if j + 1 <= |s| {
        assert s[j..j + 1] == [s[j]];
      }
    }
  }

  lemma HeaderHasNoComma()
    ensures forall i :: 0 <= i < |FileColumns| ==> NoSep(FileColumns[i], ",")
  {
    forall i | 0 <= i < |FileColumns|
      ensures NoSep(FileColumns[i], ",")
    {
      NoCharNoSep(FileColumns[i], ',');
    }
  }

  /** Reading a row back: when no reading contains a comma, splitting the line (without its
      newline) on "," gives the row's fields. */
  lemma LineReadsBack(row: HealthRow)
    requires forall i :: 0 <= i < 10 ==> NoSep(RowFields(row)[i], ",")
    ensures var line := CsvLine(RowFields(row));
            Split(line[..|line| - 1], ",") == RowFields(row)
  {
    CommaSpaceBorderless();
    var f := RowFields(row);
    NoCharNoSep("True", ',');
    NoCharNoSep("False", ',');
    assert forall i :: 10 <= i < 14 ==> f[i] == "True" || f[i] == "False";
    SplitJoin(f, ",");
    assert CsvLine(f)[..|CsvLine(f)| - 1] == Join(f, ",");
  }

  /** The header reads back as the column names. */
  lemma HeaderReadsBack()
    ensures var header := CsvLine(FileColumns);
            Split(header[..|header| - 1], ",") == FileColumns
  {
    CommaSpaceBorderless();
    HeaderHasNoComma();
    SplitJoin(FileColumns, ",");
    var header := CsvLine(FileColumns);
    assert header[..|header| - 1] == Join(FileColumns, ",");
  }

  /** The lines the sampling loop writes for a finite run of samples: one per row, up to the
      first sample whose throttle decoding failed, which ends the script. */
  function Written(samples: seq<Result<HealthRow>>): seq<string>
    decreases |samples|
  {
    if samples == [] || samples[0].Err? then []
    else [CsvLine(RowFields(samples[0].value))] + Written(samples[1..])
  }

  /** The error that ends the run, if any. */
  function FirstError(samples: seq<Result<HealthRow>>): (e: Option<Error>)
    ensures e.None? <==> forall i :: 0 <= i < |samples| ==> samples[i].Ok?
    decreases |samples|
  {
    if samples == [] then None
    else if samples[0].Err? then Some(samples[0].error)
    else FirstError(samples[1..])
  }

  /** The two log files, as the lines written to each so far. */
  class HealthLog {
    var file: seq<string>
    var shared: seq<string>

    /** Both files are freshly named after the start time, so they start empty. */
    constructor ()
      ensures file == [] && shared == []
    {
      file, shared := [], [];
    }

    /** The script's main part over a finite run of samples: the header, then one line per
        sample, each written identically to both files. */
    method Run(samples: seq<Result<HealthRow>>) returns (err: Option<Error>)
      modifies this
      ensures err == FirstError(samples)
      ensures file == old(file) + [CsvLine(FileColumns)] + Written(samples)
      ensures shared == old(shared) + [CsvLine(FileColumns)] + Written(samples)
    {
      var header := CsvLine(FileColumns);
      file := file + [header];
      shared := shared + [header];
      err := AppendRows(samples);
    }

    /** The sampling loop: one line per row, to both files, until a sample fails. */
    method AppendRows(samples: seq<Result<HealthRow>>) returns (err: Option<Error>)
      modifies this
      ensures err == FirstError(samples)
      ensures file == old(file) + Written(samples)
      ensures shared == old(shared) + Written(samples)
    {
      var i := 0;
      while i < |samples|
        invariant 0 <= i <= |samples|
        invariant forall j :: 0 <= j < i ==> samples[j].Ok?
        invariant file == old(file) + Written(samples[..i])
        invariant shared == old(shared) + Written(samples[..i])
      {
        if samples[i].Err? {
          StopsAt(samples, i);
          return Some(samples[i].error);
        }
        var line := CsvLine(RowFields(samples[i].value));
        assert Written(samples[..i + 1]) == Written(samples[..i]) + [line] by {
          WrittenSnoc(samples[..i], samples[i].value);
          assert samples[..i + 1] == samples[..i] + [Ok(samples[i].value)];
        }
        file := file + [line];
        shared := shared + [line];
        i := i + 1;
      }
      StopsAt(samples, i);
      return None;
    }
  }

  /** A run whose first `i` samples are rows and which stops at `i` (an error or the end)
      writes exactly those rows. */
  lemma {:induction false} StopsAt(s: seq<Result<HealthRow>>, i: nat)
    requires i <= |s| && (i == |s| || s[i].Err?)
    requires forall j :: 0 <= j < i ==> s[j].Ok?
    ensures Written(s) == Written(s[..i])
    ensures FirstError(s) == if i < |s| then Some(s[i].error) else None
    decreases i
  {
    if i > 0 {
      StopsAt(s[1..], i - 1);
      assert s[1..][..i - 1] == s[..i][1..];
    }
  }

  lemma {:induction false} WrittenSnoc(s: seq<Result<HealthRow>>, row: HealthRow)
    requires forall j :: 0 <= j < |s| ==> s[j].Ok?
    ensures Written(s + [Ok(row)]) == Written(s) + [CsvLine(RowFields(row))]
    decreases |s|
  {
    if s == [] {
      assert ([] + [Ok(row)])[1..] == [];
    } else {
      assert (s + [Ok(row)])[1..] == s[1..] + [Ok(row)];
      WrittenSnoc(s[1..], row);
    }
  }
}
