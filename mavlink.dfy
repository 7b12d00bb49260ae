/** The ground-side listener for the drone's health summary: every STATUSTEXT message is split
    on ", " and its three fields replace the whole display data with a temperature entry. */
module MavLink {
  import opened Wrappers
  import opened TextSplit
  import opened DisplayData
  import opened Display
  import Health
  import MavlinkLogger

  const StatusTextType: string := "STATUSTEXT"

  /** A received message: its type name and its text. */
  datatype Message = Message(msgType: string, text: string)

  /** The temperature entry of a STATUSTEXT text. The fields are read in order: the timestamp
      (ValueError if it is not a number), the temperature (IndexError if missing, ValueError if
      not a number), and the flag (IndexError if missing), which is true when non-empty.
      `parseFloat` stands for Python's `float` on a string. */
  function ParseStatusText(text: string, parseFloat: string -> Option<real>): (r: Result<Temp>)
    ensures var log := Split(text, ", ");
            r.Ok? <==> |log| >= 3 && parseFloat(log[0]).Some? && parseFloat(log[1]).Some?
    ensures r.Err? ==> r.error == ValueError || r.error == IndexError
    ensures r.Ok? ==> var log := Split(text, ", ");
                      r.value == Temp(parseFloat(log[0]).value, parseFloat(log[1]).value, log[2] != "")
  {
    var log := Split(text, ", ");
    match parseFloat(log[0])
    case None => Err(ValueError)
    case Some(timestamp) =>
      if |log| < 2 then Err(IndexError)
      else match parseFloat(log[1])
        case None => Err(ValueError)
        case Some(temperature) =>
          if |log| < 3 then Err(IndexError)
          else Ok(Temp(timestamp, temperature, log[2] != ""))
  }

  /** The display data that holds only a temperature entry. */
  function TempSnapshot(t: Temp): (d: Snapshot)
    ensures TempOnly(d) && d.temp == Some(t)
  {
    Snapshot(None, None, None, Some(t))
  }

  /** The display data and the error ending the loop, after a finite run of receives starting
      from the display data `d`. A receive that yields nothing, or a message of another type,
      changes nothing. */
  function Consume(d: Snapshot, received: seq<Option<Message>>, parseFloat: string -> Option<real>)
    : (Snapshot, Option<Error>)
    decreases |received|
  {
    if received == [] then (d, None)
    else if received[0].Some? && received[0].value.msgType == StatusTextType then
      match ParseStatusText(received[0].value.text, parseFloat)
      case Err(e) => (d, Some(e))
      case Ok(t) => Consume(TempSnapshot(t), received[1..], parseFloat)
    else Consume(d, received[1..], parseFloat)
  }

  /** The data after the loop is either untouched or the temperature entry of the last STATUSTEXT
      message processed: it never mixes in link statistics. */
  lemma {:induction false} ConsumeKeepsSingleSource(d: Snapshot, received: seq<Option<Message>>,
                                                   parseFloat: string -> Option<real>)
    ensures var (d', _) := Consume(d, received, parseFloat);
            d' == d || TempOnly(d')
    ensures SingleSource(d) ==> SingleSource(Consume(d, received, parseFloat).0)
    decreases |received|
  {
    if received != [] {
      var m := received[0];
      if m.Some? && m.value.msgType == StatusTextType {
        var p := ParseStatusText(m.value.text, parseFloat);
        if p.Ok? {
          ConsumeKeepsSingleSource(TempSnapshot(p.value), received[1..], parseFloat);
        }
      } else {
        ConsumeKeepsSingleSource(d, received[1..], parseFloat);
      }
    }
  }

  /** Without any STATUSTEXT message the display data stays as it was. */
  lemma {:induction false} OtherMessagesChangeNothing(d: Snapshot, received: seq<Option<Message>>,
                                                     parseFloat: string -> Option<real>)
    requires forall i :: 0 <= i < |received| ==>
      received[i].None? || received[i].value.msgType != StatusTextType
    ensures Consume(d, received, parseFloat) == (d, None)
    decreases |received|
  {
    if received != [] {
      OtherMessagesChangeNothing(d, received[1..], parseFloat);
    }
  }

  /** The listener's connection state and the display it writes to. */
  class MavLinkListener {
    const display: DataDisplay
    var threadActive: bool

    constructor (display: DataDisplay)
      ensures this.display == display && threadActive
    {
      this.display := display;
      threadActive := true;
    }

    /** `__exit__`: the loop stops at its next check. Closing the connection is I/O. */
    method Exit()
      modifies this`threadActive
      ensures !threadActive
    {
      threadActive := false;
    }

    /** `_get_logs` over a finite run of receives: while the thread is active, each STATUSTEXT
        message replaces the display data; the first text that fails to parse ends the loop with
        that error. */
    method GetLogs(received: seq<Option<Message>>, parseFloat: string -> Option<real>)
      returns (err: Option<Error>)
      requires display.Valid()
      modifies display`data
      ensures display.Valid()
      ensures !threadActive ==> err.None? && display.data == old(display.data)
      ensures threadActive ==> (display.data, err) == Consume(old(display.data), received, parseFloat)
    {
      var i := 0;
      while threadActive && i < |received|
        invariant 0 <= i <= |received| && display.Valid()
        invariant !threadActive ==> display.data == old(display.data)
        invariant Consume(old(display.data), received, parseFloat)
                  == Consume(display.data, received[i..], parseFloat)
      {
        var msg := received[i];
        assert received[i..][1..] == received[i + 1..];
        if msg.Some? && msg.value.msgType == StatusTextType {
          var entry := ParseStatusText(msg.value.text, parseFloat);
          if entry.Err? {
            return Some(entry.error);
          }
          display.SetData(TempSnapshot(entry.value));
        }
        i := i + 1;
      }
      return None;
    }
  }

  /** End to end: the listener decodes every entry the drone sends to the temperature it carries,
      and to `throttled` true whether the flag sent was "1" or "0". */
  lemma SentEntryDecodes(row: Health.HealthRow, timestamp: string, parseFloat: string -> Option<real>)
    requires NoSep(timestamp, ", ") && NoSep(row.readings.temperature, ", ")
    requires parseFloat(timestamp).Some? && parseFloat(row.readings.temperature).Some?
    ensures ParseStatusText(MavlinkLogger.LogEntry(row, timestamp).text, parseFloat)
            == Ok(Temp(parseFloat(timestamp).value, parseFloat(row.readings.temperature).value, true))
  {
    MavlinkLogger.EntryFields(row, timestamp);
  }

  /** A row whose temperature reading was missing is sent as "None", which `float` rejects: the
      listener's loop then ends with ValueError. */
  lemma MissingTemperatureStopsListener(row: Health.HealthRow, timestamp: string,
                                        parseFloat: string -> Option<real>, d: Snapshot)
    requires NoSep(timestamp, ", ") && row.readings.temperature == "None"
    requires parseFloat(timestamp).Some? && parseFloat("None").None?
    ensures Consume(d, [Some(Message(StatusTextType, MavlinkLogger.LogEntry(row, timestamp).text))], parseFloat)
            == (d, Some(ValueError))
  {
    assert NoSep("None", ", ") by {
      forall j | 0 <= j <= 4
        ensures !OccursAt("None", ", ", j)
      {
        if j + 2 <= 4 {
          assert "None"[j..j + 2][0] != ',';
        }
      }
    }
    MavlinkLogger.EntryFields(row, timestamp);
  }
}
