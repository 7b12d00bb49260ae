/** The driver of the 0.95" 96x64 RGB OLED: a controller that drives the reset and data/command
    lines and writes bytes over SPI, and the display object that initialises the panel, sets the
    address window, packs RGB pixels into RGB565 bytes and transfers whole frames. The hardware
    is an event trace; the panel's view of it (which writes are commands and which are pixel
    data) is a function of that trace. */
module Oled {
  import opened Wrappers
  import opened Gpio

  const OledWidth: nat := 96
  const OledHeight: nat := 64
  const SpiFreq: int := 32_000_000
  const SpiMode: int := 3

  const SetColumnAddress: int := 0x15
  const SetRowAddress: int := 0x75
  const DisplayOn: int := 0xAF

  /** The fixed configuration script sent after the reset pulse: display off, contrast A/B/C,
      master current, second precharge speeds, remap and format, start line, offset, normal
      display, multiplex ratio, master configuration, power save, phase periods, clock divider,
      precharge level, VCOMH, and scrolling off. */
  const InitScript: seq<int> := [
    0xAE, 0x81, 0xFF, 0x82, 0xFF, 0x83, 0xFF, 0x87, 0x06, 0x8A, 0x64, 0x8B, 0x78, 0x8C, 0x64,
    0xA0, 0x72, 0xA1, 0x00, 0xA2, 0x00, 0xA4, 0xA8, 0x3F, 0xAD, 0x8E, 0xB0, 0x00, 0xB1, 0x31,
    0xB3, 0xF0, 0xBB, 0x3A, 0xBE, 0x3E, 0x2E]

  datatype Line = ResetLine | DcLine

  /** What the controller does to the hardware. */
  datatype HwEvent =
    | Drive(line: Line, level: Level)
    | SpiSetup(speedHz: int, mode: int)
    | SpiWrite(bytes: seq<int>)
    | Sleep(ms: nat)
    | SpiClose
    | ReleaseLines

  /** What the panel receives: a byte string, read as command bytes when the data/command line
      was inactive and as display data when it was active. */
  datatype Transfer = Transfer(isCommand: bool, bytes: seq<int>)

  /** The level of the data/command line after a trace, starting from `dc`. */
  function DcAfter(t: seq<HwEvent>, dc: Level): Level
    decreases |t|
  {
    if t == [] then dc
    else if t[0].Drive? && t[0].line == DcLine then DcAfter(t[1..], t[0].level)
    else DcAfter(t[1..], dc)
  }

  /** The panel's view of a trace, starting with the data/command line at `dc`. */
  function Transfers(t: seq<HwEvent>, dc: Level): seq<Transfer>
    decreases |t|
  {
    if t == [] then []
    else if t[0].Drive? && t[0].line == DcLine then Transfers(t[1..], t[0].level)
    else if t[0].SpiWrite? then [Transfer(dc == Inactive, t[0].bytes)] + Transfers(t[1..], dc)
    else Transfers(t[1..], dc)
  }

  lemma {:induction false} TransfersAppend(a: seq<HwEvent>, b: seq<HwEvent>, dc: Level)
    ensures Transfers(a + b, dc) == Transfers(a, dc) + Transfers(b, DcAfter(a, dc))
    ensures DcAfter(a + b, dc) == DcAfter(b, DcAfter(a, dc))
    decreases |a|
  {
    if a == [] {
      assert a + b == b;
    } else {
      assert (a + b)[1..] == a[1..] + b;
      var dc' := if a[0].Drive? && a[0].line == DcLine then a[0].level else dc;
      TransfersAppend(a[1..], b, dc');
    }
  }

  /** `command(c)`: data/command line inactive, then the single byte. */
  function CommandEvents(c: int): seq<HwEvent>
  {
    [Drive(DcLine, Inactive), SpiWrite([c])]
  }

  /** `data(d)`: data/command line active, then the bytes. */
  function DataEvents(d: seq<int>): seq<HwEvent>
  {
    [Drive(DcLine, Active), SpiWrite(d)]
  }

  function CommandTrace(cs: seq<int>): seq<HwEvent>
    decreases |cs|
  {
    if cs == [] then [] else CommandEvents(cs[0]) + CommandTrace(cs[1..])
  }

  function CommandTransfers(cs: seq<int>): (r: seq<Transfer>)
    ensures |r| == |cs| && forall i :: 0 <= i < |cs| ==> r[i] == Transfer(true, [cs[i]])
  {
    seq(|cs|, i requires 0 <= i < |cs| => Transfer(true, [cs[i]]))
  }

  /** One event, seen by the panel. */
  lemma SingleEvent(e: HwEvent, dc: Level)
    ensures Transfers([e], dc) == if e.SpiWrite? then [Transfer(dc == Inactive, e.bytes)] else []
    ensures DcAfter([e], dc) == if e.Drive? && e.line == DcLine then e.level else dc
  {
    assert [e][1..] == [];
  }

  /** A trace without SPI writes transfers nothing, whatever the line levels. */
  lemma {:induction false} NoWritesNoTransfers(t: seq<HwEvent>, dc: Level)
    requires forall i :: 0 <= i < |t| ==> !t[i].SpiWrite?
    ensures Transfers(t, dc) == []
    decreases |t|
  {
    if t != [] {
      var dc' := if t[0].Drive? && t[0].line == DcLine then t[0].level else dc;
      NoWritesNoTransfers(t[1..], dc');
    }
  }

  /** Whatever the line was before, a run of `command` calls reaches the panel as exactly those
      bytes, each one a command, and leaves the line inactive. */
  lemma {:induction false} CommandsSeenAsCommands(cs: seq<int>, dc: Level)
    ensures Transfers(CommandTrace(cs), dc) == CommandTransfers(cs)
    ensures cs != [] ==> DcAfter(CommandTrace(cs), dc) == Inactive
    ensures cs == [] ==> DcAfter(CommandTrace(cs), dc) == dc
    decreases |cs|
  {
    if cs != [] {
      var head := CommandEvents(cs[0]);
      assert head == [Drive(DcLine, Inactive)] + [SpiWrite([cs[0]])];
      SingleEvent(Drive(DcLine, Inactive), dc);
      SingleEvent(SpiWrite([cs[0]]), Inactive);
      TransfersAppend([Drive(DcLine, Inactive)], [SpiWrite([cs[0]])], dc);
      CommandsSeenAsCommands(cs[1..], Inactive);
      TransfersAppend(head, CommandTrace(cs[1..]), dc);
    }
  }

  /** A `data` call reaches the panel as one display-data transfer and leaves the line active. */
  lemma DataSeenAsData(d: seq<int>, dc: Level)
    ensures Transfers(DataEvents(d), dc) == [Transfer(false, d)]
    ensures DcAfter(DataEvents(d), dc) == Active
  {
    assert DataEvents(d) == [Drive(DcLine, Active)] + [SpiWrite(d)];
    SingleEvent(Drive(DcLine, Active), dc);
    SingleEvent(SpiWrite(d), Active);
    TransfersAppend([Drive(DcLine, Active)], [SpiWrite(d)], dc);
  }

  /** The reset pulse: reset line active, inactive, active, 100 ms apart. */
  const ResetTrace: seq<HwEvent> := [
    Drive(ResetLine, Active), Sleep(100), Drive(ResetLine, Inactive), Sleep(100),
    Drive(ResetLine, Active), Sleep(100)]

  /** `module_init`: reset line inactive, SPI at 32 MHz in mode 3, data/command line active. */
  const ModuleInitTrace: seq<HwEvent> := [
    Drive(ResetLine, Inactive), SpiSetup(SpiFreq, SpiMode), Drive(DcLine, Active)]

  /** The window commands: column range then row range, end addresses inclusive. */
  function WindowCommands(xStart: int, yStart: int, xEnd: int, yEnd: int): seq<int>
  {
    [SetColumnAddress, xStart, xEnd - 1, SetRowAddress, yStart, yEnd - 1]
  }

  /** An RGB888 pixel as PIL returns it. */
  datatype Rgb = Rgb(r: bv8, g: bv8, b: bv8)

  /** The first byte of a packed pixel: 5 bits of red, then the top 3 bits of green. */
  function HighByte(p: Rgb): bv8
  {
    (p.r & 0xF8) | (p.g >> 5)
  }

  /** The second byte: the next 3 bits of green, then 5 bits of blue. */
  function LowByte(p: Rgb): bv8
  {
    ((p.g << 3) & 0xE0) | (p.b >> 3)
  }

  /** The two bytes, read as one big-endian 16-bit word, are the RGB565 encoding of the pixel:
      the top 5 bits of red, the top 6 of green and the top 5 of blue. */
  lemma PackingIsRgb565(p: Rgb)
    ensures ((HighByte(p) as bv16) << 8) | (LowByte(p) as bv16) ==
            (((p.r as bv16) >> 3) << 11) | (((p.g as bv16) >> 2) << 5) | ((p.b as bv16) >> 3)
  {
  }

  /** Known packings: white, black, pure red, pure green, pure blue and a mid grey. */
  lemma PackingExamples()
    ensures HighByte(Rgb(0xFF, 0xFF, 0xFF)) == 0xFF && LowByte(Rgb(0xFF, 0xFF, 0xFF)) == 0xFF
    ensures HighByte(Rgb(0, 0, 0)) == 0 && LowByte(Rgb(0, 0, 0)) == 0
    ensures HighByte(Rgb(0xFF, 0, 0)) == 0xF8 && LowByte(Rgb(0xFF, 0, 0)) == 0
    ensures HighByte(Rgb(0, 0xFF, 0)) == 0x07 && LowByte(Rgb(0, 0xFF, 0)) == 0xE0
    ensures HighByte(Rgb(0, 0, 0xFF)) == 0 && LowByte(Rgb(0, 0, 0xFF)) == 0x1F
    ensures HighByte(Rgb(0x80, 0x80, 0x80)) == 0x84 && LowByte(Rgb(0x80, 0x80, 0x80)) == 0x10
  {
  }

  /** An image of `w` by `h` pixels, row by row. */
  datatype Image = Image(w: nat, h: nat, px: seq<Rgb>)

  predicate WellFormed(img: Image)
  {
    |img.px| == img.w * img.h
  }

  class DisplayController {
    var trace: seq<HwEvent>
    var dc: Level
    var rst: Level

    /** Both lines are requested as outputs driven active. */
    constructor ()
      ensures trace == [] && dc == Active && rst == Active
    {
      trace, dc, rst := [], Active, Active;
    }

    method SetReset(v: Level)
      modifies this
      ensures rst == v && dc == old(dc) && trace == old(trace) + [Drive(ResetLine, v)]
    {
      rst := v;
      trace := trace + [Drive(ResetLine, v)];
    }

    method SetDc(v: Level)
      modifies this
      ensures dc == v && rst == old(rst) && trace == old(trace) + [Drive(DcLine, v)]
    {
      dc := v;
      trace := trace + [Drive(DcLine, v)];
    }

    method Pause(ms: nat)
      modifies this
      ensures dc == old(dc) && rst == old(rst) && trace == old(trace) + [Sleep(ms)]
    {
      trace := trace + [Sleep(ms)];
    }

    /** `module_init`; it always reports success. */
    method ModuleInit() returns (status: int)
      modifies this
      ensures status == 0
      ensures dc == Active && rst == Inactive && trace == old(trace) + ModuleInitTrace
    {
      SetReset(Inactive);
      trace := trace + [SpiSetup(SpiFreq, SpiMode)];
      SetDc(Active);
      status := 0;
    }

    /** `module_exit`: close SPI, then both lines inactive. */
    method ModuleExit()
      modifies this
      ensures dc == Inactive && rst == Inactive
      ensures trace == old(trace) + [SpiClose, Drive(ResetLine, Inactive), Drive(DcLine, Inactive)]
    {
      trace := trace + [SpiClose];
      SetReset(Inactive);
      SetDc(Inactive);
    }

    method Command(c: int)
      modifies this
      ensures dc == Inactive && rst == old(rst) && trace == old(trace) + CommandEvents(c)
    {
      SetDc(Inactive);
      trace := trace + [SpiWrite([c])];
    }

    method Data(d: seq<int>)
      modifies this
      ensures dc == Active && rst == old(rst) && trace == old(trace) + DataEvents(d)
    {
      SetDc(Active);
      trace := trace + [SpiWrite(d)];
    }

    /** Release of the GPIO line request. */
    method Release()
      modifies this
      ensures dc == old(dc) && rst == old(rst) && trace == old(trace) + [ReleaseLines]
    {
      trace := trace + [ReleaseLines];
    }
  }

  class OledDisplay {
    const display: DisplayController
    const width: nat := OledWidth
    const height: nat := OledHeight

    constructor ()
      ensures fresh(display)
      ensures display.trace == [] && display.dc == Active && display.rst == Active
      ensures width == 96 && height == 64
    {
      display := new DisplayController();
    }

    /** Sends the given bytes one `command` call at a time. */
    method Commands(cs: seq<int>)
      modifies display
      ensures display.trace == old(display.trace) + CommandTrace(cs)
      ensures display.rst == old(display.rst)
      ensures display.dc == if cs == [] then old(display.dc) else Inactive
    {
      var i := 0;
      while i < |cs|
        invariant 0 <= i <= |cs|
        invariant display.trace == old(display.trace) + CommandTrace(cs[..i])
        invariant display.rst == old(display.rst)
        invariant display.dc == if i == 0 then old(display.dc) else Inactive
      {
        CommandTraceSnoc(cs[..i], cs[i]);
        assert cs[..i + 1] == cs[..i] + [cs[i]];
        display.Command(cs[i]);
        i := i + 1;
      }
      assert cs[..i] == cs;
    }

    /** `reset`. */
    method Reset()
      modifies display
      ensures display.trace == old(display.trace) + ResetTrace
      ensures display.rst == Active && display.dc == old(display.dc)
    {
      display.SetReset(Active);
      display.Pause(100);
      display.SetReset(Inactive);
      display.Pause(100);
      display.SetReset(Active);
      display.Pause(100);
    }

    /** `init_display`: `module_init` (which always succeeds), the reset pulse, the fixed
        script, a 100 ms pause and display-on. */
    method InitDisplay()
      modifies display
      ensures display.trace == old(display.trace) + ModuleInitTrace + ResetTrace
                               + CommandTrace(InitScript) + [Sleep(100)] + CommandTrace([DisplayOn])
      ensures display.rst == Active && display.dc == Inactive
    {
      var status := display.ModuleInit();
      if status != 0 {
        return;
      }
      Reset();
      Commands(InitScript);
      display.Pause(100);
      Commands([DisplayOn]);
    }

    /** `set_windows`. */
    method SetWindows(xStart: int, yStart: int, xEnd: int, yEnd: int)
      modifies display
      ensures display.trace == old(display.trace) + CommandTrace(WindowCommands(xStart, yStart, xEnd, yEnd))
      ensures display.rst == old(display.rst) && display.dc == Inactive
    {
      Commands(WindowCommands(xStart, yStart, xEnd, yEnd));
    }

    /** `get_buffer`: pack every pixel into two bytes at `2*x + 2*y*w` of a zero buffer of
        `width * 2 * height` bytes. A write past the end of that buffer raises IndexError, which
        happens exactly when the image has more pixels than the panel. */
    method GetBuffer(img: Image) returns (r: Result<seq<int>>)
      requires WellFormed(img)
      ensures r.Ok? <==> img.w * img.h <= width * height
      ensures r.Err? ==> r.error == IndexError
      ensures r.Ok? ==> |r.value| == width * 2 * height
      ensures r.Ok? ==> forall p :: 0 <= p < |img.px| ==>
        r.value[2 * p] == HighByte(img.px[p]) as int && r.value[2 * p + 1] == LowByte(img.px[p]) as int
      ensures r.Ok? ==> forall i :: 2 * |img.px| <= i < |r.value| ==> r.value[i] == 0
    {
      var n := width * 2 * height;
      if img.w * img.h > width * height {
        return Err(IndexError);
      }
      var buf := new int[n](_ => 0);
      for y := 0 to img.h
        invariant Packed(buf[..], img.px, y * img.w)
        invariant ZeroFrom(buf[..], 2 * (y * img.w))
      {
        RowFits(y, img.w, img.h);
        PackRow(buf, img, y * img.w);
      }
      r := Ok(buf[..]);
    }

    /** The inner loop of `get_buffer`: packs the row of the image that starts at pixel `base`. */
    method PackRow(buf: array<int>, img: Image, base: nat)
      requires base + img.w <= |img.px| && 2 * (base + img.w) <= buf.Length
      requires Packed(buf[..], img.px, base) && ZeroFrom(buf[..], 2 * base)
      modifies buf
      ensures Packed(buf[..], img.px, base + img.w) && ZeroFrom(buf[..], 2 * (base + img.w))
    {
      for x := 0 to img.w
        invariant Packed(buf[..], img.px, base + x)
        invariant ZeroFrom(buf[..], 2 * (base + x))
      {
        var p := img.px[base + x];
        ghost var before := buf[..];
        buf[x * 2 + base * 2] := HighByte(p) as int;
        buf[x * 2 + 1 + base * 2] := LowByte(p) as int;
        assert buf[..] == before[2 * (base + x) := HighByte(p) as int][2 * (base + x) + 1 := LowByte(p) as int];
        PackOne(before, img.px, base + x);
      }
    }

    /** `show_image`: the full-panel window, then the first `width * 2 * height` bytes of the
        buffer in order in one data write. A shorter buffer raises IndexError after the window
        commands and before any data is written. */
    method ShowImage(buff: seq<int>) returns (ok: bool)
      modifies display
      ensures ok <==> |buff| >= width * 2 * height
      ensures ok ==> display.trace == old(display.trace) + CommandTrace(WindowCommands(0, 0, width, height))
                                      + DataEvents(buff[..width * 2 * height])
      ensures !ok ==> display.trace == old(display.trace) + CommandTrace(WindowCommands(0, 0, width, height))
      ensures display.rst == old(display.rst)
    {
      Commands(WindowCommands(0, 0, width, height));
      var rowBytes := width * 2;
      var pixels: seq<int> := [];
      for i := 0 to height
        invariant rowBytes * i <= |buff|
        invariant pixels == buff[..rowBytes * i]
      {
        for j := 0 to rowBytes
          invariant rowBytes * i + j <= |buff|
          invariant pixels == buff[..rowBytes * i + j]
        {
          if j + rowBytes * i >= |buff| {
            MulMono(i + 1, height, rowBytes);
            return false;
          }
          pixels := pixels + [buff[j + rowBytes * i]];
        }
        assert rowBytes * i + rowBytes == rowBytes * (i + 1);
      }
      display.Data(pixels);
      ok := true;
    }

    /** `clear`: show an all-zero buffer of `width * height * 2` bytes. */
    method Clear()
      modifies display
      ensures display.trace == old(display.trace) + CommandTrace(WindowCommands(0, 0, width, height))
                               + DataEvents(Zeros(width * 2 * height))
      ensures display.rst == old(display.rst)
    {
      var buffer := Zeros(width * height * 2);
      assert width * height * 2 == width * 2 * height;
      var ok := ShowImage(buffer);
      assert buffer[..width * 2 * height] == buffer;
    }

    /** `__exit__`: clear the panel, close SPI, both lines inactive, release the lines. */
    method Exit()
      modifies display
      ensures display.trace == old(display.trace) + CommandTrace(WindowCommands(0, 0, width, height))
                               + DataEvents(Zeros(width * 2 * height))
                               + [SpiClose, Drive(ResetLine, Inactive), Drive(DcLine, Inactive), ReleaseLines]
      ensures display.rst == Inactive && display.dc == Inactive
    {
      Clear();
      display.ModuleExit();
      display.Release();
    }
  }

  function Zeros(n: nat): (z: seq<int>)
    ensures |z| == n && forall i :: 0 <= i < n ==> z[i] == 0
  {
    seq(n, _ => 0)
  }

  lemma {:induction false} CommandTraceSnoc(cs: seq<int>, c: int)
    ensures CommandTrace(cs + [c]) == CommandTrace(cs) + CommandEvents(c)
    decreases |cs|
  {
    if cs == [] {
      assert CommandTrace([c]) == CommandEvents(c) + CommandTrace([]);
    } else {
      assert (cs + [c])[1..] == cs[1..] + [c];
      CommandTraceSnoc(cs[1..], c);
    }
  }

  /** The first `count` pixels are packed, two bytes each, at the front of the buffer. */
  predicate Packed(buf: seq<int>, px: seq<Rgb>, count: nat)
  {
    count <= |px| && 2 * count <= |buf| &&
    forall p :: 0 <= p < count ==>
      buf[2 * p] == HighByte(px[p]) as int && buf[2 * p + 1] == LowByte(px[p]) as int
  }

  /** Every byte from `start` on is still zero. */
  predicate ZeroFrom(buf: seq<int>, start: nat)
  {
    forall i :: start <= i < |buf| ==> buf[i] == 0
  }

  /** Writing the next pixel's two bytes extends the packed prefix by one pixel. */
  lemma PackOne(buf: seq<int>, px: seq<Rgb>, k: nat)
    requires Packed(buf, px, k) && ZeroFrom(buf, 2 * k) && k < |px| && 2 * k + 1 < |buf|
    ensures Packed(buf[2 * k := HighByte(px[k]) as int][2 * k + 1 := LowByte(px[k]) as int], px, k + 1)
    ensures ZeroFrom(buf[2 * k := HighByte(px[k]) as int][2 * k + 1 := LowByte(px[k]) as int], 2 * (k + 1))
  {
  }

  /** Row `y` of a `w`-wide image of `h` rows lies within its `w * h` pixels. */
  lemma RowFits(y: nat, w: nat, h: nat)
    requires y < h
    ensures y * w + w == (y + 1) * w <= w * h
    ensures y * w * 2 == 2 * (y * w)
  {
    MulMono(y + 1, h, w);
  }

  lemma MulMono(a: nat, b: nat, c: nat)
    requires a <= b
    ensures a * c <= b * c
  {
  }

  /** The panel sees the initialisation as the bytes of the script, each a single-byte command,
      then display-on; the SPI set-up, the reset pulse and the pause transfer nothing. */
  lemma InitSeenByPanel(script: seq<int>, dc: Level)
    ensures Transfers(ModuleInitTrace + ResetTrace + CommandTrace(script) + [Sleep(100)]
                      + CommandTrace([DisplayOn]), dc)
            == CommandTransfers(script + [DisplayOn])
  {
    var pre := ModuleInitTrace + ResetTrace;
    var cmds := CommandTrace(script);
    var last := CommandTrace([DisplayOn]);
    assert Transfers(pre, dc) == [] by {
      assert forall i :: 0 <= i < |pre| ==> !pre[i].SpiWrite?;
      NoWritesNoTransfers(pre, dc);
    }
    TransfersAppend(pre, cmds, dc);
    CommandsSeenAsCommands(script, DcAfter(pre, dc));
    var d1 := DcAfter(pre + cmds, dc);
    TransfersAppend(pre + cmds, [Sleep(100)], dc);
    SingleEvent(Sleep(100), d1);
    TransfersAppend(pre + cmds + [Sleep(100)], last, dc);
    CommandsSeenAsCommands([DisplayOn], DcAfter(pre + cmds + [Sleep(100)], dc));
    assert CommandTransfers(script) + CommandTransfers([DisplayOn])
           == CommandTransfers(script + [DisplayOn]);
  }

  /** The panel sees a frame as the six window commands followed by one data transfer holding
      the pixel bytes in order. */
  lemma FrameSeenByPanel(w: int, h: int, pixels: seq<int>, dc: Level)
    ensures Transfers(CommandTrace(WindowCommands(0, 0, w, h)) + DataEvents(pixels), dc)
            == CommandTransfers([SetColumnAddress, 0, w - 1, SetRowAddress, 0, h - 1]) + [Transfer(false, pixels)]
  {
    var cmds := WindowCommands(0, 0, w, h);
    TransfersAppend(CommandTrace(cmds), DataEvents(pixels), dc);
    CommandsSeenAsCommands(cmds, dc);
    DataSeenAsData(pixels, Inactive);
  }
}
