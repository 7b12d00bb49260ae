/** The decisions the four data screens take before drawing: whether to show the "[No data]"
    placeholder, which values to show and in which colour. The display module holds the older
    overview screen; the data-screen module holds a newer one that adds the temperature line and
    a throttle mark. The packet, flow and antenna screens are the same in both modules. Pixel
    rendering with fonts is not modelled. */
module Screens {
  import opened Wrappers
  import opened DisplayData
  import opened Bands

  datatype PacketRow = PacketRow(name: string, windowed: int, total: int, color: Color)

  /** What a screen draws. */
  datatype Frame =
    | NoData                                                     // the "[No data]" placeholder
    | OverviewFrame(rssi: Banded, snr: Banded, loss: Banded)
    | OverviewTempFrame(rssi: Banded, snr: Banded, loss: Banded,
                        temperature: Option<real>, throttleMark: bool)
    | PacketFrame(rows: seq<PacketRow>)
    | FlowFrame(inRate: Rate, outRate: Rate, fecK: int, fecN: int)
    | AntennaFrame(rssiStats: Triple, snrStats: Triple)

  /** `data.get("antenna", {}).get("rssi", {}).get("avg")`. */
  function RssiAvg(d: Snapshot): Option<real>
  {
    if d.antenna.Some? then Some(d.antenna.value.rssi.avg) else None
  }

  function SnrAvg(d: Snapshot): Option<real>
  {
    if d.antenna.Some? then Some(d.antenna.value.snr.avg) else None
  }

  /** Python truthiness of an optional number: missing and 0 are both false. */
  predicate Truthy(x: Option<real>)
  {
    x.Some? && x.value != 0.0
  }

  /** Truthiness of the packet section: missing and the empty dictionary are both false. */
  predicate HasPackets(d: Snapshot)
  {
    d.packet.Some? && d.packet.value != []
  }

  /** The three coloured overview values; a missing part is shown as 0 in WHITE. */
  function OverviewValues(d: Snapshot): (v: (Banded, Banded, Banded))
    ensures Truthy(RssiAvg(d)) ==> v.0 == HumanRssi(RssiAvg(d).value)
    ensures !Truthy(RssiAvg(d)) ==> v.0 == Banded(0.0, White)
    ensures Truthy(SnrAvg(d)) ==> v.1 == HumanSnr(SnrAvg(d).value)
    ensures !Truthy(SnrAvg(d)) ==> v.1 == Banded(0.0, White)
    ensures HasPackets(d) ==> v.2 == HumanPacketLoss(d.packet.value)
    ensures !HasPackets(d) ==> v.2 == Banded(0.0, White)
  {
    var rssi := RssiAvg(d);
    var snr := SnrAvg(d);
    (if Truthy(rssi) then HumanRssi(rssi.value) else Banded(0.0, White),
     if Truthy(snr) then HumanSnr(snr.value) else Banded(0.0, White),
     if HasPackets(d) then HumanPacketLoss(d.packet.value) else Banded(0.0, White))
  }

  /** The overview screen of the display module. */
  function Overview(d: Snapshot): (f: Frame)
    ensures f == NoData <==> !Truthy(RssiAvg(d)) && !Truthy(SnrAvg(d)) && !HasPackets(d)
    ensures f != NoData ==> f == OverviewFrame(OverviewValues(d).0, OverviewValues(d).1, OverviewValues(d).2)
  {
    if !Truthy(RssiAvg(d)) && !Truthy(SnrAvg(d)) && !HasPackets(d) then NoData
    else
      var (rssi, snr, loss) := OverviewValues(d);
      OverviewFrame(rssi, snr, loss)
  }

  /** The overview screen of the data-screen module: the same placeholder rule, plus the
      temperature (drawn through a band function the utilities module does not define) and the
      throttle mark, which defaults to off when there is no temperature section. */
  function OverviewWithTemp(d: Snapshot): (f: Frame)
    ensures f == NoData <==> !Truthy(RssiAvg(d)) && !Truthy(SnrAvg(d)) && !HasPackets(d)
    ensures f != NoData ==> f.OverviewTempFrame? && (f.rssi, f.snr, f.loss) == OverviewValues(d)
    ensures f != NoData ==> (f.throttleMark <==> d.temp.Some? && d.temp.value.throttled)
    ensures f != NoData ==> (f.temperature.Some? <==> d.temp.Some?)
  {
    if !Truthy(RssiAvg(d)) && !Truthy(SnrAvg(d)) && !HasPackets(d) then NoData
    else
      var (rssi, snr, loss) := OverviewValues(d);
      var temperature := if d.temp.Some? then Some(d.temp.value.temperature) else None;
      var throttled := if d.temp.Some? then d.temp.value.throttled else false;
      OverviewTempFrame(rssi, snr, loss, temperature, throttled)
  }

  /** Because each producer replaces the whole display data, the temperature and the link
      statistics are never present together, so the newer overview never draws a temperature or
      a throttle mark: with a temperature section it shows the placeholder. */
  lemma OverviewNeverShowsTemperature(d: Snapshot)
    requires SingleSource(d)
    ensures d.temp.Some? ==> OverviewWithTemp(d) == NoData
    ensures OverviewWithTemp(d) != NoData ==>
              OverviewWithTemp(d).temperature.None? && !OverviewWithTemp(d).throttleMark
  {
  }

  /** The rows of the packet screen, from position `i` on; reading the two numbers of a counter
      shorter than two elements raises IndexError. */
  function PacketRows(items: Counters, i: nat): (r: Result<seq<PacketRow>>)
    ensures r.Ok? <==> forall k :: 0 <= k < |items| ==> |items[k].1| >= 2
    ensures r.Err? ==> r.error == IndexError
    ensures r.Ok? ==> |r.value| == |items|
    ensures r.Ok? ==> forall k :: 0 <= k < |items| ==>
      r.value[k] == PacketRow(items[k].0, items[k].1[0], items[k].1[1], r.value[k].color) &&
      (r.value[k].color == Red <==> items[k].1[0] > 0 && i + k > 1) &&
      (r.value[k].color != Red ==> r.value[k].color == White)
  {
    if items == [] then Ok([])
    else
      var (name, v) := items[0];
      if |v| < 2 then Err(IndexError)
      else
        var color := if v[0] > 0 && i > 1 then Red else White;
        var rest := PacketRows(items[1..], i + 1);
        if rest.Err? then rest
        else Ok([PacketRow(name, v[0], v[1], color)] + rest.value)
  }

  /** The packet screen. */
  function PacketScreen(d: Snapshot): (r: Result<Frame>)
    ensures !HasPackets(d) ==> r == Ok(NoData)
    ensures HasPackets(d) ==> (r.Ok? <==> PacketRows(d.packet.value, 0).Ok?)
    ensures HasPackets(d) && r.Ok? ==> r.value == PacketFrame(PacketRows(d.packet.value, 0).value)
    ensures r.Err? ==> r.error == IndexError
  {
    if !HasPackets(d) then Ok(NoData)
    else
      var rows := PacketRows(d.packet.value, 0);
      if rows.Err? then Err(rows.error) else Ok(PacketFrame(rows.value))
  }

  /** The first two rows (received and UDP-out in the decoder's order) are never red. */
  lemma FirstTwoRowsNeverRed(d: Snapshot, k: nat)
    requires PacketScreen(d).Ok? && PacketScreen(d).value.PacketFrame?
    requires k < 2 && k < |PacketScreen(d).value.rows|
    ensures PacketScreen(d).value.rows[k].color == White
  {
  }

  /** The flow screen. */
  function FlowScreen(d: Snapshot): (f: Frame)
    ensures d.flow.None? <==> f == NoData
    ensures d.flow.Some? ==> f == FlowFrame(HumanRate(d.flow.value.bytesIn as real),
                                           HumanRate(d.flow.value.bytesOut as real),
                                           d.flow.value.fecK, d.flow.value.fecN)
  {
    match d.flow
    case None => NoData
    case Some(flow) =>
      FlowFrame(HumanRate(flow.bytesIn as real), HumanRate(flow.bytesOut as real), flow.fecK, flow.fecN)
  }

  /** The antenna screen. */
  function AntennaScreen(d: Snapshot): (f: Frame)
    ensures d.antenna.None? <==> f == NoData
    ensures d.antenna.Some? ==> f == AntennaFrame(d.antenna.value.rssi, d.antenna.value.snr)
  {
    match d.antenna
    case None => NoData
    case Some(a) => AntennaFrame(a.rssi, a.snr)
  }
}
