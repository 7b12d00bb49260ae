/** The display data dictionary that the producers store into the display and the screens read.
    Every section is optional: the producers replace the whole dictionary, so a section that the
    latest writer did not include is simply absent. */
module DisplayData {
  import opened Wrappers

  /** A packet counter as decoded from the statistics record: normally the pair
      (windowed count, cumulative count), but a decoded tuple may have any length. */
  type Counter = seq<int>

  /** The "packet" section: an insertion-ordered dictionary from counter name to counter.
      The order matters, because the packet screen colours rows by their position. */
  type Counters = seq<(string, Counter)>

  /** The "flow" section: windowed input and output byte counts and the FEC pair (k, n). */
  datatype Flow = Flow(bytesIn: int, bytesOut: int, fecK: int, fecN: int)

  /** min/avg/max of one antenna quantity. */
  datatype Triple = Triple(min: real, avg: real, max: real)

  /** The "antenna" section: RSSI and SNR triples averaged over the reporting antennas. */
  datatype Antenna = Antenna(rssi: Triple, snr: Triple)

  /** The "temp" section written by the radio-telemetry listener. */
  datatype Temp = Temp(timestamp: real, temperature: real, throttled: bool)

  datatype Snapshot = Snapshot(
    packet: Option<Counters>,
    flow: Option<Flow>,
    antenna: Option<Antenna>,
    temp: Option<Temp>)

  /** The empty dictionary the display starts with. */
  const Empty := Snapshot(None, None, None, None)

  /** `d.get(key)` on the packet dictionary: the first entry with that name. */
  function Get(d: Counters, key: string): (r: Option<Counter>)
    ensures r.None? <==> forall i :: 0 <= i < |d| ==> d[i].0 != key
    ensures r.Some? ==>
      exists i :: 0 <= i < |d| && d[i] == (key, r.value) && forall j :: 0 <= j < i ==> d[j].0 != key
  {
    if d == [] then None
    else if d[0].0 == key then Some(d[0].1)
    else
      var r := Get(d[1..], key);
      assert forall i :: 1 <= i < |d| ==> d[i] == d[1..][i - 1];
      r
  }

  /** Written by the statistics decoder: link sections only. */
  predicate LinkOnly(d: Snapshot)
  {
    d.packet.Some? && d.flow.Some? && d.antenna.Some? && d.temp.None?
  }

  /** Written by the radio-telemetry listener: the temperature section only. */
  predicate TempOnly(d: Snapshot)
  {
    d.packet.None? && d.flow.None? && d.antenna.None? && d.temp.Some?
  }

  /** Every value the display data can hold: the initial empty dictionary or the last store of
      one of the two producers. Link statistics and temperature never coexist. */
  predicate SingleSource(d: Snapshot)
  {
    d == Empty || LinkOnly(d) || TempOnly(d)
  }
}
