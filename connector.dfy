/**
 * `RtmpCameraConnector`: the streaming and recording session flags, the
 * routing of encoded media to the RTMP client and to the file recorder,
 * and the retry hook. The encoders, the RTMP client and the recorder are
 * collaborators; what the connector asks of them is recorded in order.
 */
module Connector {
  import opened Base

  /**
   * The kinds of encoded media the encoders deliver. Parameter sets come
   * with a VPS from an H.265 encoder and with `null` in its place from an
   * H.264 encoder.
   */
  datatype Media = AacAudio | H264Video | ParameterSets(hasVps: bool)

  /** What the connector asks of its collaborators. */
  datatype Effect =
    | SetVideoResolution(width: int, height: int)
    | Connect(url: string)
    | Disconnect
    | EncodersStart
    | EncodersStop
    | StartRecordFile(path: string)
    | StopRecordFile
    | ResetVideoEncoder
    | ReConnect(delayMs: int)
    | ToRtmp(media: Media)
    | ToRecorder(media: Media)
    | ForwardConnectionSuccess

  /** The four session flags. */
  datatype Session = Session(isStreaming: bool, isRecording: bool, pausedStreaming: bool, pausedRecording: bool)

  /**
   * Where a piece of media is meant to go: to the RTMP client while
   * streaming unpaused, then (except parameter sets) to the recorder while
   * recording unpaused.
   */
  function Destinations(s: Session, m: Media): seq<Effect>
  {
    (if s.isStreaming && !s.pausedStreaming then [ToRtmp(m)] else []) +
    (if s.isRecording && !s.pausedRecording && !m.ParameterSets? then [ToRecorder(m)] else [])
  }

  /**
   * A delivery as written. `onSpsPpsVps` overrides a Java interface method
   * but declares its `vps` parameter non-null, so Kotlin's parameter check
   * throws a NullPointerException on entry, before any flag is read, for
   * parameter sets without a VPS; other media go to their `Destinations`.
   */
  function Delivered(s: Session, m: Media): Outcome<seq<Effect>>
  {
    if m == ParameterSets(false) then Threw(NullPointer) else Ok(Destinations(s, m))
  }

  /**
   * H.264 parameter sets never reach the RTMP client as written: every
   * such call throws, whatever the flags, even while streaming unpaused,
   * where they are meant to go to the client. Every other delivery
   * follows `Destinations`.
   */
  lemma NullVpsNeverDelivered(s: Session, m: Media)
    ensures Delivered(s, ParameterSets(false)) == Threw(NullPointer)
    ensures s.isStreaming && !s.pausedStreaming ==>
      Destinations(s, ParameterSets(false)) == [ToRtmp(ParameterSets(false))] &&
      Delivered(s, ParameterSets(false)) != Ok(Destinations(s, ParameterSets(false)))
    ensures m != ParameterSets(false) ==> Delivered(s, m) == Ok(Destinations(s, m))
  {
  }

  /**
   * Audio and video reach the RTMP client exactly while streaming
   * unpaused and the recorder exactly while recording unpaused, each
   * independently of the other flags; parameter sets only go to the RTMP
   * client, with or without a VPS.
   */
  lemma DestinationsIndependent(s: Session, m: Media)
    ensures ToRtmp(m) in Destinations(s, m) <==> s.isStreaming && !s.pausedStreaming
    ensures ToRecorder(m) in Destinations(s, m) <==> s.isRecording && !s.pausedRecording && !m.ParameterSets?
    ensures m.ParameterSets? ==> Destinations(s, m) == (if s.isStreaming && !s.pausedStreaming then [ToRtmp(m)] else [])
    ensures |Destinations(s, m)| <= 2
    ensures forall e :: e in Destinations(s, m) ==> e == ToRtmp(m) || e == ToRecorder(m)
  {
  }

  /** The resolution given to the RTMP client: width and height swap for a quarter turn. */
  function TransportResolution(width: int, height: int, rotation: int): (r: (int, int))
    ensures multiset{r.0, r.1} == multiset{width, height}
  {
    if rotation == 90 || rotation == 270 then (height, width) else (width, height)
  }

  /**
   * The transport resolution has the encoder's dimensions, in turned
   * order exactly for rotations of 90 and 270 degrees.
   */
  lemma TransportResolutionTurns(width: int, height: int, rotation: int)
    ensures var r := TransportResolution(width, height, rotation);
      multiset{r.0, r.1} == multiset{width, height} && r.0 * r.1 == width * height &&
      (width != height ==> (r == (height, width) <==> rotation == 90 || rotation == 270))
  {
  }

  class Connector {
    const useOpenGL: bool
    var isStreaming: bool
    var isRecording: bool
    var pausedStreaming: bool
    var pausedRecording: bool
    /** Whether `videoEncoder` is set, and its size, rotation and `running` flag. */
    var hasVideoEncoder: bool
    var encoderWidth: int
    var encoderHeight: int
    var encoderRotation: int
    var encoderRunning: bool
    var effects: seq<Effect>

    function Flags(): Session
      reads this
    {
      Session(isStreaming, isRecording, pausedStreaming, pausedRecording)
    }

    constructor(openGL: bool)
      ensures useOpenGL == openGL
      ensures Flags() == Session(false, false, false, false) && !hasVideoEncoder && !encoderRunning && effects == []
    {
      useOpenGL := openGL;
      isStreaming := false;
      isRecording := false;
      pausedStreaming := false;
      pausedRecording := false;
      hasVideoEncoder := false;
      encoderWidth := 0;
      encoderHeight := 0;
      encoderRotation := 0;
      encoderRunning := false;
      effects := [];
    }

    /**
     * `prepareVideo`: both pause flags are cleared and a new, stopped video
     * encoder is made (with no rotation of its own under OpenGL); the
     * encoder's `prepare` decides the answer.
     */
    method PrepareVideo(width: int, height: int, rotation: int, prepared: bool) returns (ok: bool)
      modifies this`pausedStreaming, this`pausedRecording, this`hasVideoEncoder, this`encoderWidth,
               this`encoderHeight, this`encoderRotation, this`encoderRunning
      ensures ok == prepared
      ensures !pausedStreaming && !pausedRecording
      ensures hasVideoEncoder && !encoderRunning && encoderWidth == width && encoderHeight == height
      ensures encoderRotation == if useOpenGL then 0 else rotation
    {
      pausedStreaming := false;
      pausedRecording := false;
      hasVideoEncoder := true;
      encoderWidth := width;
      encoderHeight := height;
      encoderRotation := if useOpenGL then 0 else rotation;
      encoderRunning := false;
      ok := prepared;
    }

    /**
     * `startStream`: a no-op while streaming; otherwise streaming is set and
     * the client gets the transport resolution and connects (which throws
     * before any video encoder exists).
     */
    method StartStream(url: string) returns (fault: Option<Fault>)
      modifies this`isStreaming, this`effects
      ensures old(isStreaming) ==> fault.None? && unchanged(this)
      ensures !old(isStreaming) ==> isStreaming
      ensures !old(isStreaming) && !hasVideoEncoder ==> fault == Some(NullPointer) && effects == old(effects)
      ensures !old(isStreaming) && hasVideoEncoder ==>
        var r := TransportResolution(encoderWidth, encoderHeight, encoderRotation);
        fault.None? && effects == old(effects) + [SetVideoResolution(r.0, r.1), Connect(url)]
    {
      if isStreaming {
        return None;
      }
      isStreaming := true;
      fault := StartStreamRtp(url);
    }

    /** `startStreamRtp`: the resolution, swapped for a quarter turn, then the connection. */
    method StartStreamRtp(url: string) returns (fault: Option<Fault>)
      modifies this`effects
      ensures !hasVideoEncoder ==> fault == Some(NullPointer) && effects == old(effects)
      ensures hasVideoEncoder ==>
        var r := TransportResolution(encoderWidth, encoderHeight, encoderRotation);
        fault.None? && effects == old(effects) + [SetVideoResolution(r.0, r.1), Connect(url)]
    {
      if !hasVideoEncoder {
        return Some(NullPointer);
      }
      if encoderRotation == 90 || encoderRotation == 270 {
        effects := effects + [SetVideoResolution(encoderHeight, encoderWidth)];
      } else {
        effects := effects + [SetVideoResolution(encoderWidth, encoderHeight)];
      }
      effects := effects + [Connect(url)];
      fault := None;
    }

    /** `startEncoders`: the video encoder, then audio and microphone, start. */
    method StartEncoders() returns (fault: Option<Fault>)
      modifies this`encoderRunning, this`effects
      ensures !hasVideoEncoder ==> fault == Some(NullPointer) && unchanged(this)
      ensures hasVideoEncoder ==> fault.None? && encoderRunning && effects == old(effects) + [EncodersStart]
    {
      if !hasVideoEncoder {
        return Some(NullPointer);
      }
      encoderRunning := true;
      effects := effects + [EncodersStart];
      fault := None;
    }

    /**
     * `startRecord`: a no-op while recording; otherwise the recorder starts
     * and recording is set, and the encoders start only when not streaming.
     */
    method StartRecord(path: string) returns (fault: Option<Fault>)
      modifies this`isRecording, this`encoderRunning, this`effects
      ensures old(isRecording) ==> fault.None? && unchanged(this)
      ensures !old(isRecording) ==> isRecording
      ensures !old(isRecording) && isStreaming ==>
        fault.None? && encoderRunning == old(encoderRunning) && effects == old(effects) + [StartRecordFile(path)]
      ensures !old(isRecording) && !isStreaming && hasVideoEncoder ==>
        fault.None? && encoderRunning && effects == old(effects) + [StartRecordFile(path), EncodersStart]
      ensures !old(isRecording) && !isStreaming && !hasVideoEncoder ==>
        fault == Some(NullPointer) && encoderRunning == old(encoderRunning) && effects == old(effects) + [StartRecordFile(path)]
    {
      if isRecording {
        return None;
      }
      effects := effects + [StartRecordFile(path)];
      isRecording := true;
      fault := None;
      if !isStreaming {
        fault := StartEncoders();
      }
    }

    /**
     * `stopStream`: streaming is always cleared and the client
     * disconnected; the encoders stop only when not recording.
     */
    method StopStream() returns (fault: Option<Fault>)
      modifies this`isStreaming, this`encoderRunning, this`effects
      ensures !isStreaming
      ensures isRecording ==> fault.None? && encoderRunning == old(encoderRunning) && effects == old(effects) + [Disconnect]
      ensures !isRecording && hasVideoEncoder ==>
        fault.None? && !encoderRunning && effects == old(effects) + [Disconnect, EncodersStop]
      ensures !isRecording && !hasVideoEncoder ==>
        fault == Some(NullPointer) && encoderRunning == old(encoderRunning) && effects == old(effects) + [Disconnect]
    {
      isStreaming := false;
      effects := effects + [Disconnect];
      if !isRecording {
        if !hasVideoEncoder {
          return Some(NullPointer);
        }
        encoderRunning := false;
        effects := effects + [EncodersStop];
      }
      fault := None;
    }

    /** `stopRecord`: recording is cleared and the recorder stopped; the stream too when not streaming. */
    method StopRecord() returns (fault: Option<Fault>)
      modifies this`isRecording, this`isStreaming, this`encoderRunning, this`effects
      ensures !isRecording && isStreaming == old(isStreaming)
      ensures old(isStreaming) ==> fault.None? && encoderRunning == old(encoderRunning) && effects == old(effects) + [StopRecordFile]
      ensures !old(isStreaming) && hasVideoEncoder ==>
        fault.None? && !encoderRunning && effects == old(effects) + [StopRecordFile, Disconnect, EncodersStop]
      ensures !old(isStreaming) && !hasVideoEncoder ==>
        fault == Some(NullPointer) && encoderRunning == old(encoderRunning) && effects == old(effects) + [StopRecordFile, Disconnect]
    {
      isRecording := false;
      effects := effects + [StopRecordFile];
      fault := None;
      if !isStreaming {
        fault := StopStream();
      }
    }

    method PauseStream()
      modifies this`pausedStreaming
      ensures pausedStreaming
    {
      pausedStreaming := true;
    }

    method ResumeStream()
      modifies this`pausedStreaming
      ensures !pausedStreaming
    {
      pausedStreaming := false;
    }

    method PauseRecord()
      modifies this`pausedRecording
      ensures pausedRecording
    {
      pausedRecording := true;
    }

    method ResumeRecord()
      modifies this`pausedRecording
      ensures !pausedRecording
    {
      pausedRecording := false;
    }

    /**
     * `reTry`: the client's `shouldRetry` answer is returned; exactly when it
     * is yes, the video encoder is reset (left running) and the client
     * reconnects after the delay.
     */
    method ReTry(delayMs: int, shouldRetry: bool) returns (result: Outcome<bool>)
      modifies this`encoderRunning, this`effects
      ensures !shouldRetry ==> result == Ok(false) && unchanged(this)
      ensures shouldRetry && !hasVideoEncoder ==> result == Threw(NullPointer) && unchanged(this)
      ensures shouldRetry && hasVideoEncoder ==>
        result == Ok(true) && encoderRunning && effects == old(effects) + [ResetVideoEncoder, ReConnect(delayMs)]
    {
      if shouldRetry {
        if !hasVideoEncoder {
          return Threw(NullPointer);
        }
        encoderRunning := true;
        effects := effects + [ResetVideoEncoder, ReConnect(delayMs)];
      }
      result := Ok(shouldRetry);
    }

    /**
     * `getAacData`, `getVideoData` and `onSpsPpsVps`: the media goes where
     * the session flags allow, except that parameter sets without a VPS
     * throw on entry, as `Delivered` says.
     */
    method Deliver(m: Media) returns (fault: Option<Fault>)
      modifies this`effects
      ensures m == ParameterSets(false) ==> fault == Some(NullPointer) && effects == old(effects)
      ensures m != ParameterSets(false) ==> fault.None? && effects == old(effects) + Destinations(Flags(), m)
    {
      if m == ParameterSets(false) {
        return Some(NullPointer);
      }
      if isStreaming && !pausedStreaming {
        effects := effects + [ToRtmp(m)];
      }
      if isRecording && !pausedRecording && !m.ParameterSets? {
        effects := effects + [ToRecorder(m)];
      }
      fault := None;
    }

    /** `onConnectionSuccessRtmp`: the encoders start unless the video encoder already runs; the event is passed on. */
    method OnConnectionSuccessRtmp() returns (fault: Option<Fault>)
      modifies this`encoderRunning, this`effects
      ensures !hasVideoEncoder ==> fault == Some(NullPointer) && unchanged(this)
      ensures hasVideoEncoder && old(encoderRunning) ==>
        fault.None? && encoderRunning && effects == old(effects) + [ForwardConnectionSuccess]
      ensures hasVideoEncoder && !old(encoderRunning) ==>
        fault.None? && encoderRunning && effects == old(effects) + [EncodersStart, ForwardConnectionSuccess]
    {
      if !hasVideoEncoder {
        return Some(NullPointer);
      }
      if !encoderRunning {
        fault := StartEncoders();
      }
      effects := effects + [ForwardConnectionSuccess];
      fault := None;
    }
  }
}
