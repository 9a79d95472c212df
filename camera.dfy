/**
 * The streaming side of the plugin's Android `Camera`: the retry loop run
 * when the RTMP connection fails, the guards and resets of starting and
 * stopping a stream, the default bitrate and the media orientation. The
 * RTMP camera is a collaborator: the answers of its `reTry` are a
 * parameter, and what the camera does to it or sends to Dart is recorded
 * as a sequence of effects.
 */
module Camera {
  import opened Base

  const MAX_RETRIES: int := 3
  const DEFAULT_BITRATE: int := 1200 * 1024
  const ORIENTATION_UNKNOWN: int := -1

  /** The events sent to the Dart side. */
  datatype EventType = RtmpRetry | RtmpStopped | Error

  /** What the camera asks of the RTMP camera, or sends to Dart. */
  datatype Effect =
    | ReTry(index: int)
    | StopStream
    | StartStream(url: string)
    | Send(event: EventType, message: string)

  /** The answer a platform call gets back. */
  datatype Reply = Success | Failure(code: string)

  /**
   * The first retry index from `from` through `MAX_RETRIES` whose `reTry`
   * succeeds, if any.
   */
  function FirstSuccess(from: int, reTry: int -> bool): (r: Option<int>)
    ensures r.Some? ==> from <= r.value <= MAX_RETRIES && reTry(r.value)
    decreases MAX_RETRIES + 1 - from
  {
    if from > MAX_RETRIES then None
    else if reTry(from) then Some(from)
    else FirstSuccess(from + 1, reTry)
  }

  /** Every index before the one chosen fails, and none is chosen only when all of them fail. */
  lemma {:induction false} FirstSuccessIsFirst(from: int, reTry: int -> bool)
    ensures var r := FirstSuccess(from, reTry);
      (r.Some? ==> forall j :: from <= j < r.value ==> !reTry(j)) &&
      (r.None? <==> forall j :: from <= j <= MAX_RETRIES ==> !reTry(j))
    decreases MAX_RETRIES + 1 - from
  {
    if from <= MAX_RETRIES && !reTry(from) {
      FirstSuccessIsFirst(from + 1, reTry);
    }
  }

  /** The `reTry` calls for indices `from` up to, not including, `to`. */
  function Attempts(from: int, to: int): (es: seq<Effect>)
    ensures |es| == Max(to - from, 0)
    ensures forall k :: 0 <= k < |es| ==> es[k] == ReTry(from + k)
    decreases Max(to - from, 0)
  {
    if to <= from then []
    else
      var init := Attempts(from, to - 1);
      assert forall k :: 0 <= k < |init| ==> init[k] == ReTry(from + k);
      init + [ReTry(to - 1)]
  }

  /**
   * `mediaOrientation`: the device orientation (negated for a front
   * camera, 0 when unknown) plus the sensor's, reduced with Java's `%`.
   */
  function MediaOrientation(currentOrientation: int, isFrontFacing: bool, sensorOrientation: int): (r: int)
    ensures var offset := if currentOrientation == ORIENTATION_UNKNOWN then 0
                          else if isFrontFacing then -currentOrientation else currentOrientation;
      (r - (offset + sensorOrientation)) % 360 == 0 &&
      (((currentOrientation == ORIENTATION_UNKNOWN || 0 <= currentOrientation <= 360) && 0 <= sensorOrientation <= 360)
        ==> 0 <= r < 360)
  {
    var offset := if currentOrientation == ORIENTATION_UNKNOWN then 0
                  else if isFrontFacing then -currentOrientation else currentOrientation;
    TruncRem(offset + sensorOrientation + 360, 360)
  }

  class Camera {
    /** Whether `rtmpCamera` is set. */
    var hasRtmpCamera: bool
    var currentRetries: int
    var recordingRtmp: bool
    var publishUrl: Option<string>
    /** The video bitrate the RTMP camera was last prepared with. */
    var preparedBitrate: int
    var effects: seq<Effect>

    /** The retry counter stays within the loop's range. */
    ghost predicate Valid()
      reads this
    {
      0 <= currentRetries <= MAX_RETRIES
    }

    constructor()
      ensures Valid()
      ensures !hasRtmpCamera && currentRetries == 0 && !recordingRtmp && publishUrl.None? && effects == []
    {
      hasRtmpCamera := false;
      currentRetries := 0;
      recordingRtmp := false;
      publishUrl := None;
      preparedBitrate := 0;
      effects := [];
    }

    /**
     * `onConnectionFailedRtmp`: `reTry` is asked for each index from the
     * current retry count through 3 until one succeeds, which sends one
     * retry event and leaves the count at that index; if none does, the
     * stream is stopped, the RTMP camera dropped and one stopped event
     * sent. Without an RTMP camera nothing happens.
     */
    method OnConnectionFailedRtmp(reason: string, reTry: int -> bool)
      requires Valid()
      modifies this`currentRetries, this`hasRtmpCamera, this`effects
      ensures Valid()
      ensures !old(hasRtmpCamera) ==> unchanged(this)
      ensures old(hasRtmpCamera) && FirstSuccess(old(currentRetries), reTry).Some? ==>
        var k := FirstSuccess(old(currentRetries), reTry).value;
        hasRtmpCamera && currentRetries == k &&
        effects == old(effects) + Attempts(old(currentRetries), k + 1) + [Send(RtmpRetry, reason)]
      ensures old(hasRtmpCamera) && FirstSuccess(old(currentRetries), reTry).None? ==>
        !hasRtmpCamera && currentRetries == MAX_RETRIES &&
        effects == old(effects) + Attempts(old(currentRetries), MAX_RETRIES + 1) +
                   [StopStream, Send(RtmpStopped, "Failed retry")]
    {
      if !hasRtmpCamera {
        return;
      }
      var i := currentRetries;
      while i <= MAX_RETRIES
        invariant old(currentRetries) <= i <= MAX_RETRIES + 1
        invariant FirstSuccess(old(currentRetries), reTry) == FirstSuccess(i, reTry)
        invariant effects == old(effects) + Attempts(old(currentRetries), i)
        invariant currentRetries == if i == old(currentRetries) then i else i - 1
        invariant hasRtmpCamera
      {
        currentRetries := i;
        effects := effects + [ReTry(i)];
        if reTry(i) {
          effects := effects + [Send(RtmpRetry, reason)];
          return;
        }
        i := i + 1;
      }
      effects := effects + [StopStream];
      hasRtmpCamera := false;
      effects := effects + [Send(RtmpStopped, "Failed retry")];
    }

    /**
     * `startVideoStreaming`: without a url only an error is reported.
     * Otherwise the retry count is reset, a fresh RTMP camera is prepared
     * (stopping the old one) with the given bitrate or 1200 kbit/s, and,
     * once the capture session is created, the stream is marked as
     * recording; a capture failure is reported as an error.
     */
    method StartVideoStreaming(url: Option<string>, bitrate: Option<int>, sessionCreated: bool) returns (reply: Reply)
      requires Valid()
      modifies this
      ensures Valid()
      ensures url.None? ==> reply == Failure("fileExists") && unchanged(this)
      ensures url.Some? ==>
        currentRetries == 0 && hasRtmpCamera && publishUrl == url &&
        preparedBitrate == bitrate.GetOr(DEFAULT_BITRATE) &&
        effects == old(effects) + (if old(hasRtmpCamera) then [StopStream] else []) +
                   (if sessionCreated then [StartStream(url.value)] else []) &&
        recordingRtmp == (old(recordingRtmp) || sessionCreated) &&
        reply == if sessionCreated then Success else Failure("videoStreamingFailed")
    {
      if url.None? {
        return Failure("fileExists");
      }
      currentRetries := 0;
      PrepareRtmpPublished(url.value, bitrate);
      if !sessionCreated {
        return Failure("videoStreamingFailed");
      }
      effects := effects + [StartStream(url.value)];
      recordingRtmp := true;
      reply := Success;
    }

    /** `prepareRtmpPublished`: any previous RTMP camera is stopped, and the new one gets the bitrate or the default. */
    method PrepareRtmpPublished(url: string, bitrate: Option<int>)
      modifies this`hasRtmpCamera, this`effects, this`preparedBitrate, this`publishUrl
      ensures hasRtmpCamera && publishUrl == Some(url)
      ensures preparedBitrate == if bitrate.None? then DEFAULT_BITRATE else bitrate.value
      ensures effects == old(effects) + if old(hasRtmpCamera) then [StopStream] else []
    {
      if hasRtmpCamera {
        effects := effects + [StopStream];
      }
      hasRtmpCamera := true;
      var bitrateToUse := bitrate;
      if bitrateToUse.None? {
        bitrateToUse := Some(DEFAULT_BITRATE);
      }
      preparedBitrate := bitrateToUse.value;
      publishUrl := Some(url);
    }

    /**
     * `stopVideoStreaming`: a success without effect when not streaming;
     * otherwise the retry count, the streaming flag and the url are reset
     * before the RTMP camera is stopped, which throws when a failed retry
     * already dropped it.
     */
    method StopVideoStreaming(previewRestarts: bool) returns (reply: Outcome<Reply>)
      requires Valid()
      modifies this`currentRetries, this`recordingRtmp, this`publishUrl, this`effects
      ensures Valid()
      ensures !old(recordingRtmp) ==> reply == Ok(Success) && unchanged(this)
      ensures old(recordingRtmp) ==> currentRetries == 0 && !recordingRtmp && publishUrl.None?
      ensures old(recordingRtmp) && !hasRtmpCamera ==> reply == Threw(NullPointer) && effects == old(effects)
      ensures old(recordingRtmp) && hasRtmpCamera ==>
        effects == old(effects) + [StopStream] &&
        reply == Ok(if previewRestarts then Success else Failure("videoStreamingFailed"))
    {
      if !recordingRtmp {
        return Ok(Success);
      }
      currentRetries := 0;
      recordingRtmp := false;
      publishUrl := None;
      if !hasRtmpCamera {
        return Threw(NullPointer);
      }
      effects := effects + [StopStream];
      reply := Ok(if previewRestarts then Success else Failure("videoStreamingFailed"));
    }

    /** `onDisconnectRtmp`: the stream is stopped and a stopped event sent; it throws without an RTMP camera. */
    method OnDisconnectRtmp() returns (fault: Option<Fault>)
      modifies this`effects
      ensures !hasRtmpCamera ==> fault == Some(NullPointer) && effects == old(effects)
      ensures hasRtmpCamera ==> fault.None? && effects == old(effects) + [StopStream, Send(RtmpStopped, "Disconnected")]
    {
      if !hasRtmpCamera {
        return Some(NullPointer);
      }
      effects := effects + [StopStream, Send(RtmpStopped, "Disconnected")];
      fault := None;
    }
  }
}
