/** The display object: the four data screens linked into a circular list, the current screen,
    and the display data, which the producers replace wholesale through the `data` setter. */
module Display {
  import opened Wrappers
  import opened DisplayData
  import opened Screens

  datatype ScreenKind = OverviewScreen | PacketScreen | FlowScreen | AntennaScreen

  /** The screens in the order the constructor lists them. */
  const Ring: seq<ScreenKind> := [OverviewScreen, PacketScreen, FlowScreen, AntennaScreen]

  /** Position of the screen that follows position `i` in the circular list. */
  function Successor(i: nat): (j: nat)
    ensures j < |Ring|
    ensures i + 1 < |Ring| ==> j == i + 1
    ensures i + 1 == |Ring| ==> j == 0
  {
    (i + 1) % |Ring|
  }

  /** Position reached from `i` after `k` calls of `next_screen`. */
  function Advance(i: nat, k: nat): nat
    decreases k
  {
    if k == 0 then i else Advance(Successor(i), k - 1)
  }

  /** After k presses the current screen is k positions further on, modulo the ring size. */
  lemma {:induction false} AdvanceIsModular(i: nat, k: nat)
    requires i < |Ring|
    ensures Advance(i, k) == (i + k) % |Ring|
    decreases k
  {
    if k > 0 {
      AdvanceIsModular(Successor(i), k - 1);
      assert (((i + 1) % 4) + (k - 1)) % 4 == (i + k) % 4;
    }
  }

  /** Four presses (or any multiple of four) come back to the same screen. */
  lemma FullTurns(i: nat, m: nat)
    requires i < |Ring|
    ensures Advance(i, |Ring| * m) == i
  {
    AdvanceIsModular(i, |Ring| * m);
    assert (i + 4 * m) % 4 == i;
  }

  /** The ring order: Overview, Packet, Flow, Antenna, then Overview again. */
  lemma RingOrder()
    ensures Ring[Successor(0)] == PacketScreen && Ring[Successor(1)] == FlowScreen
    ensures Ring[Successor(2)] == AntennaScreen && Ring[Successor(3)] == OverviewScreen
  {
  }

  /** What a screen draws for some display data. */
  function Render(kind: ScreenKind, d: Snapshot): (r: Result<Frame>)
    ensures kind != PacketScreen ==> r.Ok?
    ensures LinkOnly(d) && (kind == FlowScreen || kind == AntennaScreen) ==> r.value != NoData
    ensures TempOnly(d) ==> r == Ok(NoData)
  {
    match kind
    case OverviewScreen => Ok(Overview(d))
    case PacketScreen => Screens.PacketScreen(d)
    case FlowScreen => Ok(Screens.FlowScreen(d))
    case AntennaScreen => Ok(Screens.AntennaScreen(d))
  }

  class DataDisplay {
    /** `links[i]` is the position of the `next_screen` of the screen at position `i`. */
    var links: array<nat>
    var current: nat
    var data: Snapshot

    ghost predicate Valid()
      reads this, links
    {
      links.Length == |Ring| && current < |Ring| &&
      forall i :: 0 <= i < |Ring| ==> links[i] == Successor(i)
    }

    /** Links each screen to the one after it and the last one back to the first; the current
        screen is the first and the data is empty. */
    constructor ()
      ensures Valid() && fresh(links)
      ensures Ring[current] == OverviewScreen && data == Empty
    {
      var next := new nat[|Ring|];
      var i := 0;
      while i < |Ring| - 1
        invariant 0 <= i <= |Ring| - 1
        invariant forall j :: 0 <= j < i ==> next[j] == j + 1
      {
        next[i] := i + 1;
        i := i + 1;
      }
      next[|Ring| - 1] := 0;
      links := next;
      current := 0;
      data := Empty;
    }

    function CurrentScreen(): ScreenKind
      reads this, links
      requires Valid()
    {
      Ring[current]
    }

    /** `next_screen`: follow the link of the current screen. */
    method NextScreen()
      requires Valid()
      modifies this`current
      ensures Valid()
      ensures current == Successor(old(current))
    {
      current := links[current];
    }

    /** The `data` setter: the new dictionary replaces the old one, nothing is merged. */
    method SetData(value: Snapshot)
      requires Valid()
      modifies this`data
      ensures Valid() && data == value
    {
      data := value;
    }

    /** One frame of the refresh loop: the current screen applied to the current data. */
    function CurrentFrame(): (r: Result<Frame>)
      reads this, links
      requires Valid()
      ensures CurrentScreen() == OverviewScreen ==> r == Ok(Overview(data))
      ensures CurrentScreen() == PacketScreen ==> r == Screens.PacketScreen(data)
      ensures CurrentScreen() == FlowScreen ==> r == Ok(Screens.FlowScreen(data))
      ensures CurrentScreen() == AntennaScreen ==> r == Ok(Screens.AntennaScreen(data))
      ensures TempOnly(data) ==> r == Ok(NoData)
    {
      Render(CurrentScreen(), data)
    }
  }
}
