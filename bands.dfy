/** The severity and rate bands shown on the screens (`human_rssi`, `human_snr`,
    `human_packet_loss`, `human_rate`). The same four functions appear twice in the source,
    once in the utilities module and once at the top of the display module; the two copies are
    identical, so one model serves both. Numbers are exact reals; only the printf formatting of
    the result is not modelled. */
module Bands {
  import opened Wrappers
  import opened DisplayData

  datatype Color = Red | Orange | Yellow | Green | Cyan | White

  /** A value together with the colour it is drawn in. */
  datatype Banded = Banded(value: real, color: Color)

  /** Quality order of the RSSI/SNR colours, worst first. */
  function Rank(c: Color): nat
  {
    match c
    case Red => 0
    case Orange => 1
    case Yellow => 2
    case Green => 3
    case Cyan => 4
    case White => 0
  }

  /** `human_rssi`: the percentage `2 * (rssi + 100)` and its band. */
  function HumanRssi(rssi: real): (r: Banded)
    ensures r.value == 2.0 * (rssi + 100.0)
    ensures r.color == Red <==> r.value < 25.0
    ensures r.color == Orange <==> 25.0 <= r.value < 50.0
    ensures r.color == Yellow <==> 50.0 <= r.value < 75.0
    ensures r.color == Green <==> 75.0 <= r.value < 100.0
    ensures r.color == Cyan <==> 100.0 <= r.value
  {
    var percent := 2.0 * (rssi + 100.0);
    if percent < 25.0 then Banded(percent, Red)
    else if percent < 50.0 then Banded(percent, Orange)
    else if percent < 75.0 then Banded(percent, Yellow)
    else if percent < 100.0 then Banded(percent, Green)
    else Banded(percent, Cyan)
  }

  /** A stronger signal never gets a worse colour. */
  lemma RssiBandMonotone(a: real, b: real)
    requires a <= b
    ensures Rank(HumanRssi(a).color) <= Rank(HumanRssi(b).color)
  {
  }

  /** The band edges: a percentage of exactly 25 is already ORANGE, exactly 100 is CYAN. */
  lemma RssiBandEdges()
    ensures HumanRssi(-87.5).value == 25.0 && HumanRssi(-87.5).color == Orange
    ensures HumanRssi(-50.0).value == 100.0 && HumanRssi(-50.0).color == Cyan
    ensures HumanRssi(-88.0).color == Red
  {
  }

  /** `human_snr`: the SNR itself and its band. */
  function HumanSnr(snr: real): (r: Banded)
    ensures r.value == snr
    ensures r.color == Red <==> snr < 15.0
    ensures r.color == Yellow <==> 15.0 <= snr < 25.0
    ensures r.color == Green <==> 25.0 <= snr < 40.0
    ensures r.color == Cyan <==> 40.0 <= snr
  {
    if snr < 15.0 then Banded(snr, Red)
    else if snr < 25.0 then Banded(snr, Yellow)
    else if snr < 40.0 then Banded(snr, Green)
    else Banded(snr, Cyan)
  }

  lemma SnrBandMonotone(a: real, b: real)
    requires a <= b
    ensures Rank(HumanSnr(a).color) <= Rank(HumanSnr(b).color)
  {
  }

  /** Python truthiness of an optional counter: missing and the empty tuple are both false. */
  predicate Present(c: Option<Counter>)
  {
    c.Some? && c.value != []
  }

  /** `human_packet_loss` over the packet dictionary. The received count is only divided by when
      it is present and non-zero. */
  function HumanPacketLoss(data: Counters): (r: Banded)
    ensures !Present(Get(data, "lost")) ==> r == Banded(0.0, Green)
    ensures Present(Get(data, "lost")) && (!Present(Get(data, "recv")) || Get(data, "recv").value[0] == 0)
            ==> r == Banded(100.0, Red)
    ensures Present(Get(data, "lost")) && Present(Get(data, "recv")) && Get(data, "recv").value[0] != 0 ==>
              r.value * (Get(data, "recv").value[0] as real) == 100.0 * (Get(data, "lost").value[0] as real)
    ensures r.color == Green <==> r.value < 1.0
    ensures r.color == Yellow <==> 1.0 <= r.value < 5.0
    ensures r.color == Red <==> 5.0 <= r.value
  {
    var lost := Get(data, "lost");
    if !Present(lost) then Banded(0.0, Green)
    else
      var received := Get(data, "recv");
      if !Present(received) || received.value[0] == 0 then Banded(100.0, Red)
      else
        var loss := 100.0 * (lost.value[0] as real / received.value[0] as real);
        if loss < 1.0 then Banded(loss, Green)
        else if loss < 5.0 then Banded(loss, Yellow)
        else Banded(loss, Red)
  }

  /** Without a "lost" counter the loss is 0 % whatever the received counter holds. */
  lemma NoLostIsGreen(data: Counters, recv: Counter)
    requires forall i :: 0 <= i < |data| ==> data[i].0 != "lost"
    ensures HumanPacketLoss(data + [("recv", recv)]) == Banded(0.0, Green)
  {
    var d := data + [("recv", recv)];
    assert forall i :: 0 <= i < |d| ==> d[i].0 != "lost" by {
      forall i | 0 <= i < |d| ensures d[i].0 != "lost" {
        if i < |data| { assert d[i] == data[i]; } else { assert d[i].0 == "recv"; }
      }
    }
  }

  /** 1 lost packet out of 10 received is 10 % and RED; exactly 1 % is already YELLOW. */
  lemma PacketLossExamples()
    ensures HumanPacketLoss([("recv", [10, 100]), ("lost", [1, 5])]) == Banded(10.0, Red)
    ensures HumanPacketLoss([("recv", [100, 100]), ("lost", [1, 5])]) == Banded(1.0, Yellow)
    ensures HumanPacketLoss([("recv", [10, 100])]) == Banded(0.0, Green)
    ensures HumanPacketLoss([("lost", [1, 5])]) == Banded(100.0, Red)
  {
  }

  datatype RateUnit = Kbit | Mbit

  /** How the number is printed: `%0.1f` below 10, otherwise `%3d` of the truncated value. */
  datatype RateFormat = OneDecimal | Whole(shown: int)

  /** The decisions of `human_rate`: scaled number, unit and format. */
  datatype Rate = Rate(scaled: real, unit: RateUnit, format: RateFormat)

  /** `human_rate` of a byte rate `r`. */
  function HumanRate(r: real): (rate: Rate)
    ensures rate.unit == Mbit <==> 8.0 * r >= 1000000.0
    ensures rate.unit == Mbit ==> rate.scaled * 1024.0 * 1024.0 == 8.0 * r
    ensures rate.unit == Kbit ==> rate.scaled * 1024.0 == 8.0 * r
    ensures rate.format == OneDecimal <==> rate.scaled < 10.0
    ensures rate.format.Whole? ==> rate.format.shown as real <= rate.scaled < rate.format.shown as real + 1.0
  {
    var bits := r * 8.0;
    var (scaled, unit) :=
      if bits >= 1000000.0 then (bits / 1024.0 / 1024.0, Mbit) else (bits / 1024.0, Kbit);
    if scaled < 10.0 then Rate(scaled, unit, OneDecimal)
    else Rate(scaled, unit, Whole(scaled.Floor))
  }

  /** In kbit/s the number always fits the three digits of `%3d` (it stays below 977), and in
      mbit/s it is never below 0.95, so no rate is shown as a tiny mbit/s figure. */
  lemma RateRanges(r: real)
    ensures HumanRate(r).unit == Kbit ==> HumanRate(r).scaled < 977.0
    ensures HumanRate(r).unit == Mbit ==> HumanRate(r).scaled >= 0.95
  {
    var rate := HumanRate(r);
    if rate.unit == Kbit {
      assert rate.scaled * 1024.0 < 1000000.0;
    } else {
      assert rate.scaled * 1048576.0 >= 1000000.0;
    }
  }

  /** A faster link never shows a smaller scaled number within one unit. */
  lemma RateMonotoneWithinUnit(a: real, b: real)
    requires a <= b
    requires HumanRate(a).unit == HumanRate(b).unit
    ensures HumanRate(a).scaled <= HumanRate(b).scaled
  {
  }
}
