/** The temperature history screen: a bounded queue of the last 60 samples (a deque with
    `maxlen`), one append per draw while the display data has a temperature section, and a plot
    of the window with time relative to the newest sample, three colour bands and the maximum. */
module TempLog {
  import opened DisplayData
  import opened Bands

  const MaxPlotSize: nat := 60

  /** One buffered sample, stored as (temperature, timestamp). */
  datatype Sample = Sample(temperature: real, timestamp: real)

  /** The last `n` elements of `s` (all of them when there are fewer). */
  function LastN<T>(s: seq<T>, n: nat): (r: seq<T>)
    ensures |r| == if |s| <= n then |s| else n
    ensures r == s[|s| - |r|..]
  {
    if |s| <= n then s else s[|s| - n..]
  }

  /** `deque.append` on a deque with `maxlen` 60: when full, the oldest sample is dropped. */
  function Appended(buf: seq<Sample>, x: Sample): (r: seq<Sample>)
    requires |buf| <= MaxPlotSize
    ensures r == LastN(buf + [x], MaxPlotSize)
  {
    if |buf| == MaxPlotSize then buf[1..] + [x] else buf + [x]
  }

  /** Appending the samples of `xs` one by one. */
  function AppendAll(buf: seq<Sample>, xs: seq<Sample>): (r: seq<Sample>)
    requires |buf| <= MaxPlotSize
    ensures |r| <= MaxPlotSize
    decreases |xs|
  {
    if xs == [] then buf else AppendAll(Appended(buf, xs[0]), xs[1..])
  }

  /** Keeping the last n of a sequence forgets nothing more when a long enough suffix of it is
      kept first. */
  lemma {:induction false} LastNOfSuffix<T>(s: seq<T>, t: seq<T>, rest: seq<T>, n: nat)
    requires |t| <= |s| && t == s[|s| - |t|..]
    requires |t| >= n || |t| == |s|
    ensures LastN(t + rest, n) == LastN(s + rest, n)
  {
    var a, b := LastN(t + rest, n), LastN(s + rest, n);
    assert |a| == |b|;
    forall i | 0 <= i < |a| ensures a[i] == b[i] {
      var j := |t + rest| - |a| + i;
      var k := |s + rest| - |b| + i;
      assert k == j + (|s| - |t|);
      if j < |t| {
        assert (t + rest)[j] == t[j] == s[k];
      } else {
        assert (t + rest)[j] == rest[j - |t|] == (s + rest)[k];
      }
    }
  }

  /** However many samples are appended, the buffer holds exactly the newest 60 of everything
      appended so far, in arrival order. */
  lemma {:induction false} AppendAllKeepsNewest(buf: seq<Sample>, xs: seq<Sample>)
    requires |buf| <= MaxPlotSize
    ensures AppendAll(buf, xs) == LastN(buf + xs, MaxPlotSize)
    decreases |xs|
  {
    if xs == [] {
      assert buf + xs == buf;
    } else {
      var x, rest := xs[0], xs[1..];
      calc {
        AppendAll(buf, xs);
        AppendAll(Appended(buf, x), rest);
        { AppendAllKeepsNewest(Appended(buf, x), rest); }
        LastN(Appended(buf, x) + rest, MaxPlotSize);
        { AppendedThenRest(buf, x, rest); }
        LastN(buf + [x] + rest, MaxPlotSize);
        { assert buf + [x] + rest == buf + xs; }
        LastN(buf + xs, MaxPlotSize);
      }
    }
  }

  /** Dropping the oldest sample of a full buffer loses nothing the window would keep. */
  lemma AppendedThenRest(buf: seq<Sample>, x: Sample, rest: seq<Sample>)
    requires |buf| <= MaxPlotSize
    ensures LastN(Appended(buf, x) + rest, MaxPlotSize) == LastN(buf + [x] + rest, MaxPlotSize)
  {
    LastNOfSuffix(buf + [x], Appended(buf, x), rest, MaxPlotSize);
  }

  /** After 61 appends to the empty buffer the first sample is gone and the 61st is the newest. */
  lemma SixtyOneAppends(xs: seq<Sample>)
    requires |xs| == MaxPlotSize + 1
    ensures AppendAll([], xs) == xs[1..]
    ensures AppendAll([], xs)[MaxPlotSize - 1] == xs[MaxPlotSize]
  {
    AppendAllKeepsNewest([], xs);
    assert [] + xs == xs;
  }

  /** The colour band of a plotted temperature; the three `fill_between` masks. */
  function TempBand(v: real): (c: Color)
    ensures c == Green <==> v < 70.0
    ensures c == Yellow <==> 70.0 <= v < 80.0
    ensures c == Red <==> v >= 80.0
  {
    if v < 70.0 then Green else if v < 80.0 then Yellow else Red
  }

  /** The timestamps made relative to the newest sample. */
  function RelativeTimes(buf: seq<Sample>): (r: seq<real>)
    requires buf != []
    ensures |r| == |buf|
    ensures r[|r| - 1] == 0.0
    ensures forall i :: 0 <= i < |r| ==> r[i] + buf[|buf| - 1].timestamp == buf[i].timestamp
  {
    seq(|buf|, i requires 0 <= i < |buf| => buf[i].timestamp - buf[|buf| - 1].timestamp)
  }

  function Values(buf: seq<Sample>): (r: seq<real>)
    ensures |r| == |buf| && forall i :: 0 <= i < |r| ==> r[i] == buf[i].temperature
  {
    seq(|buf|, i requires 0 <= i < |buf| => buf[i].temperature)
  }

  /** `max(values)`: at least every value and equal to one of them. */
  function MaxOf(values: seq<real>): (m: real)
    requires values != []
    ensures forall i :: 0 <= i < |values| ==> values[i] <= m
    ensures exists i :: 0 <= i < |values| && values[i] == m
  {
    if |values| == 1 then values[0]
    else
      var rest := MaxOf(values[1..]);
      assert forall i :: 1 <= i < |values| ==> values[i] == values[1..][i - 1];
      if values[0] >= rest then values[0] else rest
  }

  /** What the screen draws from the buffer. */
  datatype Plot =
    | NoPlot                                                    // the "[No data]" placeholder
    | Plot(times: seq<real>, values: seq<real>, bands: seq<Color>, maxValue: real)

  function PlotOf(buf: seq<Sample>): (p: Plot)
    ensures buf == [] <==> p == NoPlot
    ensures p.Plot? ==> |p.times| == |p.values| == |p.bands| == |buf|
    ensures p.Plot? ==> forall i :: 0 <= i < |buf| ==> p.bands[i] == TempBand(buf[i].temperature)
    ensures p.Plot? ==> p.times == RelativeTimes(buf) && p.values == Values(buf)
    ensures p.Plot? ==> p.maxValue == MaxOf(Values(buf))
  {
    if buf == [] then NoPlot
    else
      var values := Values(buf);
      Plot(RelativeTimes(buf), values, seq(|values|, i requires 0 <= i < |values| => TempBand(values[i])),
           MaxOf(values))
  }

  class TempLogScreen {
    var plotData: seq<Sample>

    ghost predicate Valid()
      reads this
    {
      |plotData| <= MaxPlotSize
    }

    constructor ()
      ensures Valid() && plotData == []
    {
      plotData := [];
    }

    /** `draw`: append the current sample when the data has a temperature section (duplicates
        included), then plot whatever the buffer holds. */
    method Draw(d: Snapshot) returns (p: Plot)
      requires Valid()
      modifies this
      ensures Valid()
      ensures d.temp.Some? ==>
        plotData == Appended(old(plotData), Sample(d.temp.value.temperature, d.temp.value.timestamp))
      ensures d.temp.None? ==> plotData == old(plotData)
      ensures p == PlotOf(plotData)
    {
      if d.temp.Some? {
        plotData := Appended(plotData, Sample(d.temp.value.temperature, d.temp.value.timestamp));
      }
      p := PlotOf(plotData);
    }
  }
}
