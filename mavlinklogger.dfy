/** The drone-side sender of the health summary: one STATUSTEXT message per health row, holding
    the row's timestamp, its temperature and one flag, separated by ", ". */
module MavlinkLogger {
  import opened TextSplit
  import opened Health

  /** MAVLink's MAV_SEVERITY_INFO. */
  const SeverityInfo: int := 6

  datatype StatusText = StatusText(severity: int, text: string)

  /** `format(flag, "b")` for a bool: "1" for True, "0" for False. */
  function FlagBinary(b: bool): (r: string)
    ensures r == "1" || r == "0"
    ensures r == "1" <==> b
  {
    if b then "1" else "0"
  }

  /** `log(data)`, given the text of the row's parsed timestamp (parsing the date is left to the
      caller). The flag field is column 11 of the row, `arm_freq_capped`. */
  function LogEntry(row: HealthRow, timestamp: string): (m: StatusText)
    ensures m.severity == SeverityInfo
  {
    StatusText(SeverityInfo, timestamp + ", " + row.readings.temperature + ", " + FlagBinary(row.armFreqCapped))
  }

  /** The entry has exactly three fields whenever the timestamp and temperature texts hold no
      ", ": the timestamp, the temperature, and a non-empty flag built from `arm_freq_capped`. */
  lemma EntryFields(row: HealthRow, timestamp: string)
    requires NoSep(timestamp, ", ") && NoSep(row.readings.temperature, ", ")
    ensures Split(LogEntry(row, timestamp).text, ", ")
            == [timestamp, row.readings.temperature, FlagBinary(row.armFreqCapped)]
    ensures |FlagBinary(row.armFreqCapped)| == 1
  {
    var fields := [timestamp, row.readings.temperature, FlagBinary(row.armFreqCapped)];
    CommaSpaceBorderless();
    assert NoSep(FlagBinary(row.armFreqCapped), ", ");
    assert Join(fields, ", ") == LogEntry(row, timestamp).text by {
      var flag := FlagBinary(row.armFreqCapped);
      assert fields[1..][1..] == [flag];
      assert Join(fields[1..][1..], ", ") == flag;
      assert Join(fields[1..], ", ") == row.readings.temperature + ", " + flag;
      assert Join(fields, ", ") == timestamp + ", " + (row.readings.temperature + ", " + flag);
    }
    SplitJoin(fields, ", ");
  }

  /** The `throttled` column never reaches the message; only `arm_freq_capped` does. */
  lemma EntryIgnoresThrottled(row: HealthRow, timestamp: string)
    ensures LogEntry(row.(throttled := !row.throttled), timestamp) == LogEntry(row, timestamp)
    ensures LogEntry(row.(armFreqCapped := !row.armFreqCapped), timestamp) != LogEntry(row, timestamp)
  {
    var other := LogEntry(row.(armFreqCapped := !row.armFreqCapped), timestamp).text;
    var mine := LogEntry(row, timestamp).text;
    assert other[|other| - 1] != mine[|mine| - 1];
  }
}
