/** The camera service: a live stream on the low-resolution output, a video recording to a file
    and single photos, each guarded by the service's `streaming` and `video_active` flags. The
    camera library's calls are recorded as events. */
module Camera {
  import opened Wrappers

  datatype Encoder = StreamEncoder | VideoEncoder

  /** The calls the service makes into the camera library. */
  datatype CameraEvent =
    | StartEncoder(encoder: Encoder, output: string)
    | StopEncoder(stopped: Encoder)
    | Capture(filename: string)
    | CloseCamera

  /** The service's state: its two flags, the current recording's file, and the calls so far. */
  datatype CameraState = CameraState(
    streaming: bool, videoActive: bool, videoOutput: Option<string>, events: seq<CameraEvent>)

  /** A recording is active exactly when there is a recording file. */
  predicate Consistent(s: CameraState)
  {
    s.videoActive <==> s.videoOutput.Some?
  }

  const Idle := CameraState(false, false, None, [])

  /** `_generate_filename`: the media folder, the mode, "--", the time stamp, "." and the
      extension. `stamp` is the current time formatted as `%Y-%m-%d--%H-%M-%S`. */
  function GenerateFilename(folder: string, mode: string, extension: string, stamp: string): (f: string)
    ensures |f| == |folder| + |mode| + 2 + |stamp| + 1 + |extension|
    ensures f[..|folder|] == folder && f[|folder|..|folder| + |mode|] == mode
    ensures f[|folder| + |mode|..|folder| + |mode| + 2] == "--"
    ensures f[|folder| + |mode| + 2..|folder| + |mode| + 2 + |stamp|] == stamp
    ensures f[|f| - |extension| - 1..] == "." + extension
  {
    folder + mode + "--" + stamp + "." + extension
  }

  /** Two files made in different seconds get different names. */
  lemma DistinctStampsDistinctNames(folder: string, mode: string, extension: string, s1: string, s2: string)
    requires s1 != s2
    ensures GenerateFilename(folder, mode, extension, s1) != GenerateFilename(folder, mode, extension, s2)
  {
    var f1 := GenerateFilename(folder, mode, extension, s1);
    var f2 := GenerateFilename(folder, mode, extension, s2);
    if |s1| == |s2| {
      var lo := |folder| + |mode| + 2;
      assert f1[lo..lo + |s1|] == s1 && f2[lo..lo + |s2|] == s2;
    } else {
      assert |f1| != |f2|;
    }
  }

  /** `start_stream`: nothing when already streaming or when the wifibroadcast check (made only
      when `checksWfb`) fails; otherwise the stream encoder starts and `streaming` is set. */
  function StartStreamSpec(s: CameraState, checksWfb: bool, wfbActive: bool, url: string): CameraState
  {
    if s.streaming then s
    else if checksWfb && !wfbActive then s
    else s.(streaming := true, events := s.events + [StartEncoder(StreamEncoder, url)])
  }

  /** `stop_stream`. */
  function StopStreamSpec(s: CameraState): CameraState
  {
    if !s.streaming then s
    else s.(streaming := false, events := s.events + [StopEncoder(StreamEncoder)])
  }

  /** `start_video`. */
  function StartVideoSpec(s: CameraState, folder: string, stamp: string): CameraState
  {
    if s.videoActive then s
    else
      var out := GenerateFilename(folder, "video", "mp4", stamp);
      s.(videoActive := true, videoOutput := Some(out), events := s.events + [StartEncoder(VideoEncoder, out)])
  }

  /** `stop_video`. */
  function StopVideoSpec(s: CameraState): CameraState
  {
    if !s.videoActive then s
    else s.(videoActive := false, videoOutput := None, events := s.events + [StopEncoder(VideoEncoder)])
  }

  /** `capture_photo`. */
  function CapturePhotoSpec(s: CameraState, folder: string, stamp: string): CameraState
  {
    s.(events := s.events + [Capture(GenerateFilename(folder, "photo", "jpg", stamp))])
  }

  /** `__exit__`: close the camera, then stop whatever is active. */
  function ExitSpec(s: CameraState): CameraState
  {
    var closed := s.(events := s.events + [CloseCamera]);
    var s1 := if closed.streaming then StopStreamSpec(closed) else closed;
    if s1.videoActive then StopVideoSpec(s1) else s1
  }

  /** Every operation keeps the recording flag and the recording file in step. */
  lemma OperationsKeepConsistent(s: CameraState, checksWfb: bool, wfbActive: bool, url: string,
                                 folder: string, stamp: string)
    requires Consistent(s)
    ensures Consistent(StartStreamSpec(s, checksWfb, wfbActive, url)) && Consistent(StopStreamSpec(s))
    ensures Consistent(StartVideoSpec(s, folder, stamp)) && Consistent(StopVideoSpec(s))
    ensures Consistent(CapturePhotoSpec(s, folder, stamp)) && Consistent(ExitSpec(s))
  {
  }

  /** Starting and stopping are guarded: a second start or stop changes nothing, and a stopped
      recording leaves no recording file. */
  lemma GuardsMakeRepeatsHarmless(s: CameraState, checksWfb: bool, wfbActive: bool, url: string,
                                  folder: string, stamp: string, stamp2: string)
    requires Consistent(s)
    ensures var t := StartStreamSpec(s, checksWfb, wfbActive, url);
            StartStreamSpec(t, checksWfb, wfbActive, url) == t
    ensures StopStreamSpec(StopStreamSpec(s)) == StopStreamSpec(s)
    ensures var t := StartVideoSpec(s, folder, stamp); StartVideoSpec(t, folder, stamp2) == t
    ensures StopVideoSpec(StopVideoSpec(s)) == StopVideoSpec(s)
    ensures StopVideoSpec(s).videoOutput.None? && !StopVideoSpec(s).videoActive
    ensures !StopStreamSpec(s).streaming
  {
  }

  /** The stream starts exactly when it was off and, where the check is made, wifibroadcast runs. */
  lemma StreamStartsIff(s: CameraState, checksWfb: bool, wfbActive: bool, url: string)
    ensures StartStreamSpec(s, checksWfb, wfbActive, url).streaming <==>
            s.streaming || !checksWfb || wfbActive
    ensures StartStreamSpec(s, checksWfb, wfbActive, url) != s <==>
            !s.streaming && (!checksWfb || wfbActive)
  {
  }

  /** After exit neither the stream nor a recording is active, and every encoder that was running
      was stopped after the camera was closed. */
  lemma ExitLeavesIdle(s: CameraState)
    requires Consistent(s)
    ensures var t := ExitSpec(s);
            !t.streaming && !t.videoActive && t.videoOutput.None?
    ensures var t := ExitSpec(s);
            t.events == s.events + [CloseCamera]
                        + (if s.streaming then [StopEncoder(StreamEncoder)] else [])
                        + (if s.videoActive then [StopEncoder(VideoEncoder)] else [])
  {
  }

  /** The service object. `checksWfb` tells the variant that checks the wifibroadcast service
      before streaming from the one that does not. */
  class CameraService {
    var streaming: bool
    var videoActive: bool
    var videoOutput: Option<string>
    var events: seq<CameraEvent>
    const mediaFolder: string
    const streamUrl: string
    const checksWfb: bool

    function State(): CameraState
      reads this
    {
      CameraState(streaming, videoActive, videoOutput, events)
    }

    predicate Valid()
      reads this
    {
      Consistent(State())
    }

    constructor (mediaFolder: string, streamUrl: string, checksWfb: bool)
      ensures Valid() && State() == Idle
      ensures this.mediaFolder == mediaFolder && this.streamUrl == streamUrl && this.checksWfb == checksWfb
    {
      this.mediaFolder, this.streamUrl, this.checksWfb := mediaFolder, streamUrl, checksWfb;
      streaming, videoActive, videoOutput, events := false, false, None, [];
    }

    /** `start_stream`; `wfbActive` is whether the service check succeeded. */
    method StartStream(wfbActive: bool)
      requires Valid()
      modifies this
      ensures Valid() && State() == StartStreamSpec(old(State()), checksWfb, wfbActive, streamUrl)
    {
      if streaming {
        return;
      }
      if checksWfb && !wfbActive {
        return;
      }
      events := events + [StartEncoder(StreamEncoder, streamUrl)];
      streaming := true;
    }

    method StopStream()
      requires Valid()
      modifies this
      ensures Valid() && State() == StopStreamSpec(old(State()))
    {
      if !streaming {
        return;
      }
      events := events + [StopEncoder(StreamEncoder)];
      streaming := false;
    }

    method StartVideo(stamp: string)
      requires Valid()
      modifies this
      ensures Valid() && State() == StartVideoSpec(old(State()), mediaFolder, stamp)
    {
      if videoActive {
        return;
      }
      var out := GenerateFilename(mediaFolder, "video", "mp4", stamp);
      videoOutput := Some(out);
      events := events + [StartEncoder(VideoEncoder, out)];
      videoActive := true;
    }

    method StopVideo()
      requires Valid()
      modifies this
      ensures Valid() && State() == StopVideoSpec(old(State()))
    {
      if !videoActive {
        return;
      }
      events := events + [StopEncoder(VideoEncoder)];
      videoActive := false;
      videoOutput := None;
    }

    method CapturePhoto(stamp: string)
      requires Valid()
      modifies this
      ensures Valid() && State() == CapturePhotoSpec(old(State()), mediaFolder, stamp)
    {
      var filename := GenerateFilename(mediaFolder, "photo", "jpg", stamp);
      events := events + [Capture(filename)];
    }

    /** `__exit__`; it reports whether the block ended without an exception. */
    method Exit(hadException: bool) returns (clean: bool)
      requires Valid()
      modifies this
      ensures Valid() && State() == ExitSpec(old(State()))
      ensures clean == !hadException
    {
      events := events + [CloseCamera];
      if streaming {
        StopStream();
      }
      if videoActive {
        StopVideo();
      }
      clean := !hadException;
    }
  }
}
