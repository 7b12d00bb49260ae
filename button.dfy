/** The "next" push button: a polling loop that remembers the last level it acted on and moves
    the display to the next screen exactly when the button goes from released to pressed. */
module Button {
  import opened Gpio
  import opened Display

  const Pin: nat := 16

  /** Number of released-to-pressed transitions in `s`, counted from the level `prev`. */
  function RisingEdges(prev: Level, s: seq<Level>): nat
    decreases |s|
  {
    if s == [] then 0
    else (if prev == Inactive && s[0] == Active then 1 else 0) + RisingEdges(s[0], s[1..])
  }

  /** The level last read: the initial reading when no poll has happened yet. */
  function LastLevel(initial: Level, s: seq<Level>): Level
  {
    if s == [] then initial else s[|s| - 1]
  }

  /** The level read just before position `i` of `s`. */
  function Before(prev: Level, s: seq<Level>, i: nat): Level
    requires i < |s|
  {
    if i == 0 then prev else s[i - 1]
  }

  lemma {:induction false} RisingEdgesSnoc(prev: Level, s: seq<Level>, v: Level)
    ensures RisingEdges(prev, s + [v]) ==
            RisingEdges(prev, s) + (if LastLevel(prev, s) == Inactive && v == Active then 1 else 0)
    decreases |s|
  {
    if s == [] {
      assert ([] + [v])[1..] == [];
    } else {
      assert (s + [v])[1..] == s[1..] + [v];
      RisingEdgesSnoc(s[0], s[1..], v);
      assert LastLevel(s[0], s[1..]) == LastLevel(prev, s);
    }
  }

  /** `_track_push` over the readings of a finite run of polls: the initial reading becomes the
      state, and each poll advances the display at most once. The screen moves on once per
      released-to-pressed transition, and the state is always the last level read. */
  method TrackPush(display: DataDisplay, initial: Level, polls: seq<Level>) returns (state: Level, presses: nat)
    requires display.Valid()
    modifies display`current
    ensures display.Valid()
    ensures presses == RisingEdges(initial, polls)
    ensures state == LastLevel(initial, polls)
    ensures display.current == (old(display.current) + presses) % |Ring|
  {
    state := initial;
    presses := 0;
    for i := 0 to |polls|
      invariant display.Valid()
      invariant presses == RisingEdges(initial, polls[..i])
      invariant state == LastLevel(initial, polls[..i])
      invariant display.current == (old(display.current) + presses) % |Ring|
    {
      var value := polls[i];
      RisingEdgesSnoc(initial, polls[..i], value);
      assert polls[..i + 1] == polls[..i] + [value];
      if value == Active && state == Inactive {
        display.NextScreen();
        presses := presses + 1;
        state := Active;
      } else if value == Inactive {
        state := Inactive;
      }
    }
    assert polls[..|polls|] == polls;
  }

  /** Holding the button pressed over any number of polls moves the screen at most once. */
  lemma {:induction false} HeldAdvancesAtMostOnce(prev: Level, n: nat)
    ensures RisingEdges(prev, seq(n, _ => Active)) == if prev == Inactive && n > 0 then 1 else 0
    decreases n
  {
    if n > 0 {
      assert seq(n, _ => Active)[1..] == seq(n - 1, _ => Active);
      HeldAdvancesAtMostOnce(Active, n - 1);
    }
  }

  /** A button already pressed when the loop starts moves nothing until it is released and
      pressed again: a press needs a released reading before it. */
  lemma {:induction false} PressNeedsRelease(prev: Level, s: seq<Level>)
    requires RisingEdges(prev, s) > 0
    ensures exists i :: 0 <= i < |s| && s[i] == Active && Before(prev, s, i) == Inactive
    decreases |s|
  {
    if prev == Inactive && s[0] == Active {
      assert Before(prev, s, 0) == Inactive;
    } else {
      PressNeedsRelease(s[0], s[1..]);
      var j :| 0 <= j < |s[1..]| && s[1..][j] == Active && Before(s[0], s[1..], j) == Inactive;
      assert s[j + 1] == Active && Before(prev, s, j + 1) == Inactive;
    }
  }

  /** With no released reading at all, nothing ever moves. */
  lemma NeverReleasedNeverAdvances(s: seq<Level>)
    requires forall i :: 0 <= i < |s| ==> s[i] == Active
    ensures RisingEdges(Active, s) == 0
  {
    if RisingEdges(Active, s) > 0 {
      PressNeedsRelease(Active, s);
    }
  }
}
