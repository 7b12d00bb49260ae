/** The statistics-record handler of the display client: it receives one decoded MessagePack
    record, recognises the video link report, maps it to the display data (renamed packet
    counters, windowed byte counts and FEC pair, antenna means) and stores it in the display.
    The client-factory module and the older top-level client script hold two copies of this
    code that differ only in how the dispatch is written. */
module Decoder {
  import opened Wrappers
  import opened DisplayData
  import opened Display
  import opened Bands

  /** The "session" field: missing key, `None`, or a dictionary of integer settings. */
  datatype Session = MissingSession | NullSession | SessionInfo(fields: map<string, int>)

  /** One `rx_ant_stats` value: (sample count, rssi min/avg/max, snr min/avg/max). */
  datatype AntStat = AntStat(samples: int, rssiMin: real, rssiAvg: real, rssiMax: real,
                             snrMin: real, snrAvg: real, snrMax: real)

  /** The fields of a decoded record that the handler reads; `None` is a missing key. The
      antenna statistics are the values of the `rx_ant_stats` dictionary in order. */
  datatype Record = Record(
    kind: Option<string>,
    id: Option<string>,
    packets: Option<map<string, seq<int>>>,
    session: Session,
    rxAntStats: Option<seq<AntStat>>)

  /** Source counter name and the display name it is copied to, in display order. */
  const Renames: seq<(string, string)> :=
    [("all", "recv"), ("out", "udp"), ("fec_rec", "fec_r"), ("lost", "lost"), ("dec_err", "d_err"), ("bad", "bad")]

  /** The six averaged antenna quantities, numbered 0..5. */
  function Field(e: AntStat, j: nat): real
    requires j < 6
  {
    match j
    case 0 => e.rssiMin
    case 1 => e.rssiAvg
    case 2 => e.rssiMax
    case 3 => e.snrMin
    case 4 => e.snrAvg
    case _ => e.snrMax
  }

  function AntennaField(a: Antenna, j: nat): real
    requires j < 6
  {
    match j
    case 0 => a.rssi.min
    case 1 => a.rssi.avg
    case 2 => a.rssi.max
    case 3 => a.snr.min
    case 4 => a.snr.avg
    case _ => a.snr.max
  }

  /** Sum of quantity `j` over the entries, accumulated left to right. */
  function SumField(es: seq<AntStat>, j: nat): real
    requires j < 6
  {
    if es == [] then 0.0 else SumField(es[..|es| - 1], j) + Field(es[|es| - 1], j)
  }

  /** Arithmetic mean of quantity `j`; 0 when no antenna reported. */
  function Mean(es: seq<AntStat>, j: nat): real
    requires j < 6
  {
    if es == [] then 0.0 else SumField(es, j) / (|es| as real)
  }

  /** Bounds on every entry bound the sum. */
  lemma {:induction false} SumFieldBounds(es: seq<AntStat>, j: nat, lo: real, hi: real)
    requires j < 6
    requires forall i :: 0 <= i < |es| ==> lo <= Field(es[i], j) <= hi
    ensures (|es| as real) * lo <= SumField(es, j) <= (|es| as real) * hi
    decreases |es|
  {
    if es != [] {
      var init := es[..|es| - 1];
      assert forall i :: 0 <= i < |init| ==> init[i] == es[i];
      SumFieldBounds(init, j, lo, hi);
    }
  }

  /** The mean of each antenna quantity lies between the smallest and the largest reported
      value: when every antenna reports within [lo, hi], so does the average shown. */
  lemma MeanWithinBounds(es: seq<AntStat>, j: nat, lo: real, hi: real)
    requires j < 6 && es != []
    requires forall i :: 0 <= i < |es| ==> lo <= Field(es[i], j) <= hi
    ensures lo <= Mean(es, j) <= hi
  {
    SumFieldBounds(es, j, lo, hi);
    var n := |es| as real;
    assert n * lo <= SumField(es, j) <= n * hi;
    assert Mean(es, j) * n == SumField(es, j);
  }

  /** Everything `_handle_video_rx` reads is there: the three top-level keys, the six renamed
      counters, non-empty byte counters, and fec_k/fec_n when the session is truthy. */
  predicate VideoRxWellFormed(attrs: Record)
  {
    attrs.packets.Some? && !attrs.session.MissingSession? && attrs.rxAntStats.Some? &&
    (forall k :: 0 <= k < |Renames| ==> Renames[k].0 in attrs.packets.value) &&
    "all_bytes" in attrs.packets.value && |attrs.packets.value["all_bytes"]| > 0 &&
    "out_bytes" in attrs.packets.value && |attrs.packets.value["out_bytes"]| > 0 &&
    (SessionTruthy(attrs.session) ==> "fec_k" in attrs.session.fields && "fec_n" in attrs.session.fields)
  }

  /** Python truthiness of the session: `None` and the empty dictionary are false. */
  predicate SessionTruthy(s: Session)
  {
    s.SessionInfo? && |s.fields| > 0
  }

  /** The dictionary `_handle_video_rx` stores for a well-formed record: the six renamed
      counters in display order, the first windowed byte counts with the FEC pair of a truthy
      session (otherwise (0, 0)), and the per-quantity antenna means. */
  function VideoSnapshot(attrs: Record): (d: Snapshot)
    requires VideoRxWellFormed(attrs)
    ensures LinkOnly(d)
    ensures forall j :: 0 <= j < 6 ==> AntennaField(d.antenna.value, j) == Mean(attrs.rxAntStats.value, j)
  {
    var packets := attrs.packets.value;
    var session := attrs.session;
    var es := attrs.rxAntStats.value;
    assert forall k :: 0 <= k < |Renames| ==> Renames[k].0 in packets;
    assert Renames[0].0 == "all" && Renames[1].0 == "out" && Renames[2].0 == "fec_rec";
    assert Renames[3].0 == "lost" && Renames[4].0 == "dec_err" && Renames[5].0 == "bad";
    var fec := if SessionTruthy(session) then (session.fields["fec_k"], session.fields["fec_n"]) else (0, 0);
    Snapshot(
      Some([("recv", packets["all"]), ("udp", packets["out"]), ("fec_r", packets["fec_rec"]),
            ("lost", packets["lost"]), ("d_err", packets["dec_err"]), ("bad", packets["bad"])]),
      Some(Flow(packets["all_bytes"][0], packets["out_bytes"][0], fec.0, fec.1)),
      Some(Antenna(Triple(Mean(es, 0), Mean(es, 1), Mean(es, 2)), Triple(Mean(es, 3), Mean(es, 4), Mean(es, 5)))),
      None)
  }

  /** The antenna part of `_handle_video_rx`: sum the six quantities over the entries, then
      divide every sum in place by the number of antennas when there is at least one. */
  method AntennaMeans(antenna: seq<AntStat>) returns (a: Antenna)
    ensures forall j :: 0 <= j < 6 ==> AntennaField(a, j) == Mean(antenna, j)
  {
    // Accumulate the six sums over the antenna entries.
    var acc := new real[6](_ => 0.0);
    for i := 0 to |antenna|
      invariant forall j :: 0 <= j < 6 ==> acc[j] == SumField(antenna[..i], j)
    {
      var e := antenna[i];
      assert antenna[..i + 1][..i] == antenna[..i];
      acc[0] := acc[0] + e.rssiMin;
      acc[1] := acc[1] + e.rssiAvg;
      acc[2] := acc[2] + e.rssiMax;
      acc[3] := acc[3] + e.snrMin;
      acc[4] := acc[4] + e.snrAvg;
      acc[5] := acc[5] + e.snrMax;
    }
    assert antenna[..|antenna|] == antenna;

    // Divide every entry in place by the number of antennas, when there is at least one.
    if |antenna| > 0 {
      var n := |antenna| as real;
      for key := 0 to 2
        invariant forall j :: 0 <= j < 3 * key ==> acc[j] == SumField(antenna, j) / n
        invariant forall j :: 3 * key <= j < 6 ==> acc[j] == SumField(antenna, j)
      {
        for k := 0 to 3
          invariant forall j :: 0 <= j < 3 * key + k ==> acc[j] == SumField(antenna, j) / n
          invariant forall j :: 3 * key + k <= j < 6 ==> acc[j] == SumField(antenna, j)
        {
          acc[3 * key + k] := acc[3 * key + k] / n;
        }
      }
    }
    a := Antenna(Triple(acc[0], acc[1], acc[2]), Triple(acc[3], acc[4], acc[5]));
  }

  /** A link-only snapshot with the renamed counters, the byte counts, the FEC pair and the
      antenna means of a well-formed record is the one `VideoSnapshot` describes. */
  lemma VideoSnapshotParts(attrs: Record, d: Snapshot)
    requires VideoRxWellFormed(attrs) && LinkOnly(d)
    requires |d.packet.value| == |Renames|
    requires forall k :: 0 <= k < |Renames| ==> d.packet.value[k] == (Renames[k].1, attrs.packets.value[Renames[k].0])
    requires d.flow.value.bytesIn == attrs.packets.value["all_bytes"][0]
    requires d.flow.value.bytesOut == attrs.packets.value["out_bytes"][0]
    requires SessionTruthy(attrs.session) ==>
      (d.flow.value.fecK, d.flow.value.fecN) == (attrs.session.fields["fec_k"], attrs.session.fields["fec_n"])
    requires !SessionTruthy(attrs.session) ==> d.flow.value.fecK == 0 && d.flow.value.fecN == 0
    requires forall j :: 0 <= j < 6 ==> AntennaField(d.antenna.value, j) == Mean(attrs.rxAntStats.value, j)
    ensures d == VideoSnapshot(attrs)
  {
    var v := VideoSnapshot(attrs);
    assert d.packet.value == v.packet.value by {
      forall k | 0 <= k < |Renames| ensures d.packet.value[k] == v.packet.value[k] {
      }
    }
    assert AntennaField(d.antenna.value, 0) == AntennaField(v.antenna.value, 0);
    assert AntennaField(d.antenna.value, 1) == AntennaField(v.antenna.value, 1);
    assert AntennaField(d.antenna.value, 2) == AntennaField(v.antenna.value, 2);
    assert AntennaField(d.antenna.value, 3) == AntennaField(v.antenna.value, 3);
    assert AntennaField(d.antenna.value, 4) == AntennaField(v.antenna.value, 4);
    assert AntennaField(d.antenna.value, 5) == AntennaField(v.antenna.value, 5);
  }

  /** `_handle_video_rx` up to the store: the new display data. Missing keys and empty byte
      counters raise. */
  method HandleVideoRx(attrs: Record) returns (r: Result<Snapshot>)
    ensures r.Ok? <==> VideoRxWellFormed(attrs)
    ensures r.Err? ==> r.error.KeyError? || r.error == IndexError
    ensures r.Ok? ==> LinkOnly(r.value)
    ensures r.Ok? ==> |r.value.packet.value| == |Renames|
    ensures r.Ok? ==> forall k :: 0 <= k < |Renames| ==>
      r.value.packet.value[k] == (Renames[k].1, attrs.packets.value[Renames[k].0])
    ensures r.Ok? ==> r.value.flow.value.bytesIn == attrs.packets.value["all_bytes"][0] &&
                      r.value.flow.value.bytesOut == attrs.packets.value["out_bytes"][0]
    ensures r.Ok? && SessionTruthy(attrs.session) ==>
      (r.value.flow.value.fecK, r.value.flow.value.fecN) ==
      (attrs.session.fields["fec_k"], attrs.session.fields["fec_n"])
    ensures r.Ok? && !SessionTruthy(attrs.session) ==>
      r.value.flow.value.fecK == 0 && r.value.flow.value.fecN == 0
    ensures r.Ok? ==> forall j :: 0 <= j < 6 ==>
      AntennaField(r.value.antenna.value, j) == Mean(attrs.rxAntStats.value, j)
    ensures r.Ok? ==> r.value == VideoSnapshot(attrs)
  {
    if attrs.packets.None? { return Err(KeyError("packets")); }
    if attrs.session.MissingSession? { return Err(KeyError("session")); }
    if attrs.rxAntStats.None? { return Err(KeyError("rx_ant_stats")); }
    var packets := attrs.packets.value;
    var session := attrs.session;
    var antenna := attrs.rxAntStats.value;

    var packetData: Counters := [];
    for k := 0 to |Renames|
      invariant |packetData| == k
      invariant forall m :: 0 <= m < k ==> Renames[m].0 in packets
      invariant forall m :: 0 <= m < k ==> packetData[m] == (Renames[m].1, packets[Renames[m].0])
    {
      var (from, to) := Renames[k];
      if from !in packets { return Err(KeyError(from)); }
      packetData := packetData + [(to, packets[from])];
    }

    if "all_bytes" !in packets { return Err(KeyError("all_bytes")); }
    if |packets["all_bytes"]| == 0 { return Err(IndexError); }
    if "out_bytes" !in packets { return Err(KeyError("out_bytes")); }
    if |packets["out_bytes"]| == 0 { return Err(IndexError); }
    var fecK, fecN := 0, 0;
    if SessionTruthy(session) {
      if "fec_k" !in session.fields { return Err(KeyError("fec_k")); }
      if "fec_n" !in session.fields { return Err(KeyError("fec_n")); }
      fecK, fecN := session.fields["fec_k"], session.fields["fec_n"];
    }
    var flowData := Flow(packets["all_bytes"][0], packets["out_bytes"][0], fecK, fecN);

    var antennaData := AntennaMeans(antenna);
    r := Ok(Snapshot(Some(packetData), Some(flowData), Some(antennaData), None));
    VideoSnapshotParts(attrs, r.value);
  }

  /** The packet section the handler builds can be read back by its display names: "recv" holds
      the "all" counter and "lost" the "lost" counter. So a report with all = (10, 100) and
      lost = (1, 5) shows a 10 % loss in RED, and one without losses shows 0 % in GREEN. */
  lemma RenamedCountersReadBack(c: Counters, packets: map<string, seq<int>>)
    requires "all" in packets && "out" in packets && "fec_rec" in packets && "lost" in packets
    requires "dec_err" in packets && "bad" in packets
    requires |c| == |Renames| && forall k :: 0 <= k < |Renames| ==> c[k] == (Renames[k].1, packets[Renames[k].0])
    ensures Get(c, "recv") == Some(packets["all"]) && Get(c, "lost") == Some(packets["lost"])
    ensures packets["all"] == [10, 100] && packets["lost"] == [1, 5] ==> HumanPacketLoss(c) == Banded(10.0, Red)
    ensures packets["all"] == [10, 100] && packets["lost"] == [0, 0] ==> HumanPacketLoss(c) == Banded(0.0, Green)
  {
    assert c[0] == ("recv", packets["all"]);
    assert c[3] == ("lost", packets["lost"]);
    assert c[1].0 == "udp" && c[2].0 == "fec_r";
  }

  /** Where a record is routed. */
  datatype Route = VideoReport | MavlinkReport | Ignored

  /** The dispatch of the client-factory module: video reports are handled, "mavlink rx"
      reports reach a handler that does nothing, anything else is ignored. Reading a record
      without "type" raises. */
  function FactoryRoute(attrs: Record): (r: Result<Route>)
    ensures r.Err? <==> attrs.kind.None?
    ensures r.Err? ==> r.error == KeyError("type")
    ensures r == Ok(VideoReport) <==> attrs.kind == Some("rx") && attrs.id == Some("video rx")
    ensures r == Ok(MavlinkReport) <==> attrs.kind == Some("rx") && attrs.id == Some("mavlink rx")
  {
    if attrs.kind.None? then Err(KeyError("type"))
    else if attrs.kind.value == "rx" && attrs.id == Some("video rx") then Ok(VideoReport)
    else if attrs.kind.value == "rx" && attrs.id == Some("mavlink rx") then Ok(MavlinkReport)
    else Ok(Ignored)
  }

  /** The dispatch of the older client script: return early unless this is a video report. */
  function ScriptRoute(attrs: Record): (r: Result<Route>)
    ensures r.Err? <==> attrs.kind.None?
    ensures r.Err? ==> r.error == KeyError("type")
    ensures r == Ok(VideoReport) <==> attrs.kind == Some("rx") && attrs.id == Some("video rx")
    ensures r != Ok(MavlinkReport)
  {
    if attrs.kind.None? then Err(KeyError("type"))
    else if attrs.kind.value != "rx" || attrs.id != Some("video rx") then Ok(Ignored)
    else Ok(VideoReport)
  }

  /** The two dispatch variants run the video handler on exactly the same records and raise on
      exactly the same records; the "mavlink rx" branch of the factory changes nothing. */
  lemma RoutesAgree(attrs: Record)
    ensures FactoryRoute(attrs).Err? <==> ScriptRoute(attrs).Err?
    ensures FactoryRoute(attrs) == Ok(VideoReport) <==> ScriptRoute(attrs) == Ok(VideoReport)
    ensures FactoryRoute(attrs) == Ok(MavlinkReport) ==> ScriptRoute(attrs) == Ok(Ignored)
  {
  }

  /** `stringReceived` on a decoded record: route it and, for a video report, replace the
      display data. Returns whether the display data was replaced; an error is the exception
      the handler raises, which leaves the display data as it was. */
  method StringReceived(display: DataDisplay, attrs: Record, scriptVariant: bool) returns (r: Result<bool>)
    requires display.Valid()
    modifies display`data
    ensures display.Valid()
    ensures var route := if scriptVariant then ScriptRoute(attrs) else FactoryRoute(attrs);
      (route.Err? ==> r.Err? && display.data == old(display.data)) &&
      (route.Ok? && route.value != VideoReport ==> r == Ok(false) && display.data == old(display.data)) &&
      (route == Ok(VideoReport) && VideoRxWellFormed(attrs) ==>
         r == Ok(true) && display.data == VideoSnapshot(attrs)) &&
      (route == Ok(VideoReport) && !VideoRxWellFormed(attrs) ==> r.Err? && display.data == old(display.data))
  {
    var route := if scriptVariant then ScriptRoute(attrs) else FactoryRoute(attrs);
    if route.Err? { return Err(route.error); }
    if route.value != VideoReport { return Ok(false); }
    var snapshot := HandleVideoRx(attrs);
    if snapshot.Err? { return Err(snapshot.error); }
    display.SetData(snapshot.value);
    r := Ok(true);
  }
}
