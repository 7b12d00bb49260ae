/** The RC-channel service: raw channel values are rounded to the nearest hundred and mapped to
    three switch positions; a per-channel cache makes the service react only to changes, which
    start or stop a recording (channel 7) or take a photo (channel 9). Arming starts the stream
    and disarming stops it. */
module Rc {
  import opened Camera

  datatype RcValue = Low | Medium | High

  /** The enum's integer values. */
  function Value(v: RcValue): int
  {
    match v
    case Low => 1000
    case Medium => 1500
    case High => 2000
  }

  const VideoChannel: string := "7"
  const PhotoChannel: string := "9"

  /** Python's `round(v / 100)` for an integer `v`: the nearest integer to v/100, ties to even. */
  function RoundHundredths(v: int): (k: int)
    ensures -50 <= v - 100 * k <= 50
    ensures v - 100 * k == 50 || v - 100 * k == -50 ==> k % 2 == 0
  {
    var q, r := v / 100, v % 100;
    if r < 50 then q
    else if r > 50 then q + 1
    else if q % 2 == 0 then q else q + 1
  }

  /** `_translate_rc_value`: the rounded value if it is one of the three positions, LOW otherwise. */
  function Translate(raw: int): (r: RcValue)
    ensures r == Medium <==> 1451 <= raw <= 1549
    ensures r == High <==> 1950 <= raw <= 2050
    ensures r == Low <==> !(1451 <= raw <= 1549) && !(1950 <= raw <= 2050)
  {
    var rounded := RoundHundredths(raw) * 100;
    if rounded == Value(Low) then Low
    else if rounded == Value(Medium) then Medium
    else if rounded == Value(High) then High
    else Low
  }

  /** Sample translations: 1510 is MEDIUM; 1450 and 1550 round away from 1500 (to 1400 and 1600,
      ties going to the even hundred) and fall back to LOW, as does the exact LOW band. */
  lemma TranslateExamples()
    ensures Translate(1510) == Medium && Translate(1500) == Medium
    ensures Translate(1450) == Low && Translate(1550) == Low
    ensures RoundHundredths(1450) == 14 && RoundHundredths(1550) == 16
    ensures Translate(950) == Low && Translate(1050) == Low && Translate(1949) == Low
    ensures Translate(1950) == High && Translate(2050) == High && Translate(2051) == Low
  {
  }

  /** What `_handle_rc_change` asks of the camera. */
  datatype Action = StartVideoCall | StopVideoCall | CapturePhotoCall

  /** `_handle_rc_change`: channel 7 HIGH starts a recording and LOW stops it (MEDIUM only logs);
      channel 9 HIGH takes a photo; nothing else does anything. */
  function HandlerAction(channel: string, v: RcValue): (a: seq<Action>)
    ensures a == [StartVideoCall] <==> channel == VideoChannel && v == High
    ensures a == [StopVideoCall] <==> channel == VideoChannel && v == Low
    ensures a == [CapturePhotoCall] <==> channel == PhotoChannel && v == High
    ensures |a| <= 1
  {
    if channel == VideoChannel then
      if v == High then [StartVideoCall] else if v == Low then [StopVideoCall] else []
    else if channel == PhotoChannel then
      if v == High then [CapturePhotoCall] else []
    else []
  }

  /** The cache and the handler calls after the items of one channel update, in order. A channel
      that is not cached is skipped; a cached one fires its handler only when its translated
      value differs from the cache, which is updated first. */
  function Observe(cache: map<string, RcValue>, items: seq<(string, int)>): (map<string, RcValue>, seq<Action>)
    decreases |items|
  {
    if items == [] then (cache, [])
    else
      var (channel, raw) := items[0];
      if channel !in cache then Observe(cache, items[1..])
      else
        var v := Translate(raw);
        if cache[channel] != v then
          var (c, acts) := Observe(cache[channel := v], items[1..]);
          (c, HandlerAction(channel, v) + acts)
        else Observe(cache, items[1..])
  }

  /** `_channel_observer`: only "channels" updates with a non-empty value are looked at. */
  function ChannelUpdate(cache: map<string, RcValue>, name: string, items: seq<(string, int)>)
    : (map<string, RcValue>, seq<Action>)
  {
    if name != "channels" || items == [] then (cache, []) else Observe(cache, items)
  }

  /** The camera after the handler calls of one update. `stamp` is the time of the update. */
  function ApplyActions(s: CameraState, acts: seq<Action>, folder: string, stamp: string): CameraState
    decreases |acts|
  {
    if acts == [] then s
    else
      var s1 := match acts[0]
        case StartVideoCall => StartVideoSpec(s, folder, stamp)
        case StopVideoCall => StopVideoSpec(s)
        case CapturePhotoCall => CapturePhotoSpec(s, folder, stamp);
      ApplyActions(s1, acts[1..], folder, stamp)
  }

  lemma {:induction false} ApplyActionsAppend(s: CameraState, a: seq<Action>, b: seq<Action>,
                                              folder: string, stamp: string)
    ensures ApplyActions(s, a + b, folder, stamp) == ApplyActions(ApplyActions(s, a, folder, stamp), b, folder, stamp)
    decreases |a|
  {
    if a != [] {
      assert (a + b)[1..] == a[1..] + b;
      var s1 := match a[0]
        case StartVideoCall => StartVideoSpec(s, folder, stamp)
        case StopVideoCall => StopVideoSpec(s)
        case CapturePhotoCall => CapturePhotoSpec(s, folder, stamp);
      ApplyActionsAppend(s1, a[1..], b, folder, stamp);
    } else {
      assert a + b == b;
    }
  }

  /** The cache never gains or loses a channel: it only ever holds channels 7 and 9. */
  lemma {:induction false} ObserveKeepsChannels(cache: map<string, RcValue>, items: seq<(string, int)>)
    ensures Observe(cache, items).0.Keys == cache.Keys
    decreases |items|
  {
    if items != [] {
      var (channel, raw) := items[0];
      if channel in cache && cache[channel] != Translate(raw) {
        ObserveKeepsChannels(cache[channel := Translate(raw)], items[1..]);
      } else {
        ObserveKeepsChannels(cache, items[1..]);
      }
    }
  }

  /** A channel the update does not mention keeps its cached value. */
  lemma {:induction false} ObserveLeavesOthers(cache: map<string, RcValue>, items: seq<(string, int)>, k: string)
    requires k in cache && forall i :: 0 <= i < |items| ==> items[i].0 != k
    ensures k in Observe(cache, items).0 && Observe(cache, items).0[k] == cache[k]
    decreases |items|
  {
    ObserveKeepsChannels(cache, items);
    if items != [] {
      var (channel, raw) := items[0];
      if channel in cache && cache[channel] != Translate(raw) {
        ObserveLeavesOthers(cache[channel := Translate(raw)], items[1..], k);
      } else {
        ObserveLeavesOthers(cache, items[1..], k);
      }
    }
  }

  /** The cache already holds the translated value of every cached channel in the update. */
  predicate Agrees(cache: map<string, RcValue>, items: seq<(string, int)>)
  {
    forall i :: 0 <= i < |items| && items[i].0 in cache ==> cache[items[i].0] == Translate(items[i].1)
  }

  /** A dictionary has no repeated keys. */
  predicate DistinctChannels(items: seq<(string, int)>)
  {
    forall i, j :: 0 <= i < j < |items| ==> items[i].0 != items[j].0
  }

  /** When nothing changed, no handler fires and the cache stays as it is. */
  lemma {:induction false} NoChangeNoAction(cache: map<string, RcValue>, items: seq<(string, int)>)
    requires Agrees(cache, items)
    ensures Observe(cache, items) == (cache, [])
    decreases |items|
  {
    if items != [] {
      assert Agrees(cache, items[1..]) by {
        forall i | 0 <= i < |items[1..]| && items[1..][i].0 in cache
          ensures cache[items[1..][i].0] == Translate(items[1..][i].1)
        {
          assert items[1..][i] == items[i + 1];
        }
      }
      NoChangeNoAction(cache, items[1..]);
    }
  }

  /** After an update, the cache agrees with it. */
  lemma {:induction false} ObserveAgrees(cache: map<string, RcValue>, items: seq<(string, int)>)
    requires DistinctChannels(items)
    ensures Agrees(Observe(cache, items).0, items)
    decreases |items|
  {
    if items != [] {
      var (channel, raw) := items[0];
      var rest := items[1..];
      assert DistinctChannels(rest) by {
        forall i, j | 0 <= i < j < |rest|
          ensures rest[i].0 != rest[j].0
        {
          assert rest[i] == items[i + 1] && rest[j] == items[j + 1];
        }
      }
      assert forall i :: 0 <= i < |rest| ==> rest[i].0 != channel by {
        forall i | 0 <= i < |rest|
          ensures rest[i].0 != channel
        {
          assert rest[i] == items[i + 1];
        }
      }
      var c1 := if channel in cache && cache[channel] != Translate(raw) then cache[channel := Translate(raw)] else cache;
      ObserveAgrees(c1, rest);
      ObserveKeepsChannels(c1, rest);
      ObserveKeepsChannels(cache, items);
      if channel in cache {
        ObserveLeavesOthers(c1, rest, channel);
      }
      var result := Observe(cache, items).0;
      assert result == Observe(c1, rest).0;
      forall i | 0 <= i < |items| && items[i].0 in result
        ensures result[items[i].0] == Translate(items[i].1)
      {
        if i > 0 {
          assert items[i] == rest[i - 1];
        }
      }
    }
  }

  /** Repeating the same update has no effect: the second time no handler fires and the cache is
      unchanged. */
  lemma RepeatedUpdateIsIgnored(cache: map<string, RcValue>, name: string, items: seq<(string, int)>)
    requires DistinctChannels(items)
    ensures var (c, _) := ChannelUpdate(cache, name, items);
            ChannelUpdate(c, name, items) == (c, [])
  {
    if name == "channels" && items != [] {
      ObserveAgrees(cache, items);
      NoChangeNoAction(Observe(cache, items).0, items);
    }
  }

  /** The service: the channel cache and the camera it drives. */
  class RcService {
    var cache: map<string, RcValue>
    const camera: CameraService

    /** Both camera channels start at LOW. */
    constructor (camera: CameraService)
      ensures cache == map[VideoChannel := Low, PhotoChannel := Low] && this.camera == camera
    {
      this.camera := camera;
      cache := map[VideoChannel := Low, PhotoChannel := Low];
    }

    /** `_handle_rc_change`. */
    method HandleRcChange(channel: string, v: RcValue, stamp: string)
      requires camera.Valid()
      modifies camera
      ensures camera.Valid()
      ensures camera.State() == ApplyActions(old(camera.State()), HandlerAction(channel, v), camera.mediaFolder, stamp)
    {
      if channel == VideoChannel {
        if v == High {
          camera.StartVideo(stamp);
        } else if v == Low {
          camera.StopVideo();
        }
      } else if channel == PhotoChannel {
        if v == High {
          camera.CapturePhoto(stamp);
        }
      }
    }

    /** `_channel_observer` for one update whose items are the channel dictionary's entries in
        order; `stamp` is the time of the update. */
    method ChannelObserver(name: string, value: seq<(string, int)>, stamp: string)
      requires camera.Valid()
      modifies this`cache, camera
      ensures camera.Valid()
      ensures cache == ChannelUpdate(old(cache), name, value).0
      ensures camera.State() ==
              ApplyActions(old(camera.State()), ChannelUpdate(old(cache), name, value).1, camera.mediaFolder, stamp)
    {
      if name != "channels" || |value| == 0 {
        return;
      }
      ghost var done: seq<Action> := [];
      assert value[0..] == value && done + Observe(cache, value).1 == Observe(cache, value).1;
      for i := 0 to |value|
        invariant camera.Valid()
        invariant Observe(old(cache), value) == (Observe(cache, value[i..]).0, done + Observe(cache, value[i..]).1)
        invariant camera.State() == ApplyActions(old(camera.State()), done, camera.mediaFolder, stamp)
      {
        var (channel, raw) := value[i];
        assert value[i..][1..] == value[i + 1..];
        if channel !in cache {
          continue;
        }
        var v := Translate(raw);
        if cache[channel] != v {
          cache := cache[channel := v];
          HandleRcChange(channel, v, stamp);
          ApplyActionsAppend(old(camera.State()), done, HandlerAction(channel, v), camera.mediaFolder, stamp);
          assert done + (HandlerAction(channel, v) + Observe(cache, value[i + 1..]).1)
                 == (done + HandlerAction(channel, v)) + Observe(cache, value[i + 1..]).1;
          done := done + HandlerAction(channel, v);
        }
      }
      assert value[|value|..] == [];
      assert done + [] == done;
    }

    /** `_arm_observer`: arming starts the stream, anything else stops it. `wfbActive` is the
        result of the wifibroadcast check for the variant that makes it. */
    method ArmObserver(armed: bool, wfbActive: bool)
      requires camera.Valid()
      modifies camera
      ensures camera.Valid()
      ensures camera.State() == if armed
                                then StartStreamSpec(old(camera.State()), camera.checksWfb, wfbActive, camera.streamUrl)
                                else StopStreamSpec(old(camera.State()))
    {
      if armed {
        camera.StartStream(wfbActive);
      } else {
        camera.StopStream();
      }
    }
  }
}
