/**
 * `SrsEncoder`: the gate that feeds camera frames to the encoders only
 * while the FLV muxer's video cache is short, with its network-weak and
 * network-resume notifications; the pause/resume shift of the presentation
 * clock; the output-resolution bookkeeping; the PCM buffer size; and the
 * colour-format choice. The codecs and the native conversions are
 * collaborators: a frame handed to them is recorded as a submission.
 */
module SrsEncoder {
  import opened Base

  /** The cached video frames beyond which the network counts as weak. */
  const VGOP: int := 48
  const PCM_CHUNK: int := 8192
  const COLOR_FORMAT_YUV420_PLANAR: int := 19
  const COLOR_FORMAT_YUV420_SEMI_PLANAR: int := 21
  const ORIENTATION_PORTRAIT: int := 1
  const ORIENTATION_LANDSCAPE: int := 2

  /** What the encoder reports to its handler. */
  datatype Notice = NetworkWeak | NetworkResume

  /** What the encoder hands to a codec, with the presentation time given. */
  datatype Submission = VideoFrame(ptsUs: int) | PcmFrame(ptsUs: int)

  /** The camera callbacks that feed video: RGBA bytes, NV21 bytes, ARGB ints. */
  datatype FrameSource = Rgba | YuvNv21 | Argb

  datatype Size = Size(width: int, height: int)
  {
    function Transposed(): Size
    {
      Size(height, width)
    }
  }

  // ---------------------------------------------------------------------
  // The network gate
  // ---------------------------------------------------------------------

  /** The cache count is known and below the GOP length. */
  predicate Accepts(cacheCount: Option<int>)
  {
    cacheCount.Some? && cacheCount.value < VGOP
  }

  /**
   * One video frame through the gate: a rejected frame reports weak and
   * sets the flag; an accepted one clears it, reporting resume if it was set.
   */
  function Gate(weak: bool, accepted: bool): (bool, seq<Notice>)
  {
    if accepted then (false, if weak then [NetworkResume] else [])
    else (true, [NetworkWeak])
  }

  /** The flag and the notices after a run of frames, accepted or not, from flag `weak`. */
  function Run(weak: bool, accepted: seq<bool>): (bool, seq<Notice>)
  {
    if accepted == [] then (weak, [])
    else
      var r := Run(weak, accepted[..|accepted| - 1]);
      var g := Gate(r.0, accepted[|accepted| - 1]);
      (g.0, r.1 + g.1)
  }

  /** The number of frames a run rejects. */
  function Rejections(accepted: seq<bool>): nat
  {
    if accepted == [] then 0
    else Rejections(accepted[..|accepted| - 1]) + (if accepted[|accepted| - 1] then 0 else 1)
  }

  /** The number of weak notices. */
  function WeakCount(ns: seq<Notice>): nat
  {
    if ns == [] then 0
    else WeakCount(ns[..|ns| - 1]) + (if ns[|ns| - 1] == NetworkWeak then 1 else 0)
  }

  lemma WeakCountAppend(a: seq<Notice>, b: seq<Notice>)
    ensures WeakCount(a + b) == WeakCount(a) + WeakCount(b)
    decreases |b|
  {
    if b != [] {
      assert (a + b)[..|a + b| - 1] == a + b[..|b| - 1];
      WeakCountAppend(a, b[..|b| - 1]);
    } else {
      assert a + b == a;
    }
  }

  /** A run appended with one more frame. */
  lemma RunSnoc(weak: bool, accepted: seq<bool>, a: bool)
    ensures Run(weak, accepted + [a]) == var r := Run(weak, accepted); var g := Gate(r.0, a); (g.0, r.1 + g.1)
    ensures Rejections(accepted + [a]) == Rejections(accepted) + (if a then 0 else 1)
  {
    assert (accepted + [a])[..|accepted|] == accepted;
  }

  /**
   * After a run the flag says whether the last frame was rejected; every
   * rejected frame reports weak; and from a clear flag every resume notice
   * directly follows a weak one, so resume fires once per weak spell.
   */
  lemma {:induction false} RunNotices(accepted: seq<bool>)
    ensures Run(false, accepted).0 == (accepted != [] && !accepted[|accepted| - 1])
    ensures WeakCount(Run(false, accepted).1) == Rejections(accepted)
    ensures var ns := Run(false, accepted).1;
      forall i :: 0 <= i < |ns| && ns[i] == NetworkResume ==> 0 < i && ns[i - 1] == NetworkWeak
    ensures Run(false, accepted).0 ==> Run(false, accepted).1 != [] && Run(false, accepted).1[|Run(false, accepted).1| - 1] == NetworkWeak
    decreases |accepted|
  {
    if accepted != [] {
      var init, a := accepted[..|accepted| - 1], accepted[|accepted| - 1];
      assert accepted == init + [a];
      RunNotices(init);
      RunSnoc(false, init, a);
      var r := Run(false, init);
      var g := Gate(r.0, a);
      WeakCountAppend(r.1, g.1);
      var ns := r.1 + g.1;
      forall i | 0 <= i < |ns| && ns[i] == NetworkResume
        ensures 0 < i && ns[i - 1] == NetworkWeak
      {
        if i >= |r.1| {
          assert r.0;
        }
      }
    }
  }

  /** The least multiple of 8192 not below the platform minimum, in Java's arithmetic. */
  function PcmBufferSize(minBufferSize: int): (r: int)
    ensures minBufferSize >= -(PCM_CHUNK - 1) ==> r % PCM_CHUNK == 0 && minBufferSize <= r < minBufferSize + PCM_CHUNK
  {
    var n := minBufferSize + PCM_CHUNK - 1;
    n - TruncRem(n, PCM_CHUNK)
  }

  /** In the YUV 4:2:0 range, planar through semi-planar. */
  predicate YuvFormat(cf: int)
  {
    COLOR_FORMAT_YUV420_PLANAR <= cf <= COLOR_FORMAT_YUV420_SEMI_PLANAR
  }

  /** The colour-format loop: the largest supported format in the YUV range, or 0 when there is none. */
  method ChooseColorFormat(formats: seq<int>) returns (matched: int)
    ensures matched == 0 <==> forall i :: 0 <= i < |formats| ==> !YuvFormat(formats[i])
    ensures matched != 0 ==> YuvFormat(matched) && matched in formats
    ensures forall i :: 0 <= i < |formats| && YuvFormat(formats[i]) ==> formats[i] <= matched
  {
    matched := 0;
    var i := 0;
    while i < |formats|
      invariant 0 <= i <= |formats|
      invariant matched == 0 <==> forall j :: 0 <= j < i ==> !YuvFormat(formats[j])
      invariant matched != 0 ==> YuvFormat(matched) && matched in formats[..i]
      invariant forall j :: 0 <= j < i && YuvFormat(formats[j]) ==> formats[j] <= matched
    {
      var cf := formats[i];
      if cf >= COLOR_FORMAT_YUV420_PLANAR && cf <= COLOR_FORMAT_YUV420_SEMI_PLANAR {
        if cf > matched {
          matched := cf;
        }
      }
      i := i + 1;
    }
    assert formats[..i] == formats;
  }

  /**
   * The encoder's fields and its class-wide settings (the Kotlin companion
   * object, shared by every encoder in the source, here one copy per
   * encoder), with the notices sent and the frames submitted so far.
   */
  class Encoder {
    const colorFormat: int
    var isSoftEncoder: bool
    var networkWeakTriggered: bool
    var presentTimeUs: int
    var pauseTimeUs: int
    var preview: Size
    var portrait: Size
    var landscape: Size
    var output: Size
    var notices: seq<Notice>
    var submitted: seq<Submission>

    /** The landscape pair is the portrait pair turned, and the output is one of them. */
    ghost predicate Valid()
      reads this
    {
      landscape == portrait.Transposed() && (output == portrait || output == landscape)
    }

    /** A new encoder picks its colour format from the codec's list; the resolutions start at 360x640 portrait. */
    constructor(supportedFormats: seq<int>)
      ensures Valid()
      ensures YuvFormat(colorFormat) || colorFormat == 0
      ensures !isSoftEncoder && !networkWeakTriggered && presentTimeUs == 0 && pauseTimeUs == 0
      ensures preview == Size(640, 360) && portrait == Size(360, 640) && output == portrait
      ensures notices == [] && submitted == []
    {
      var cf := ChooseColorFormat(supportedFormats);
      colorFormat := cf;
      isSoftEncoder := false;
      networkWeakTriggered := false;
      presentTimeUs := 0;
      pauseTimeUs := 0;
      preview := Size(640, 360);
      portrait := Size(360, 640);
      landscape := Size(640, 360);
      output := Size(360, 640);
      notices := [];
      submitted := [];
    }

    /** `start`: without both muxers nothing happens; otherwise the clock is taken and the codecs decide. */
    method Start(nowUs: int, hasMuxers: bool, codecsStart: bool) returns (ok: bool)
      modifies this`presentTimeUs
      ensures ok == (hasMuxers && codecsStart)
      ensures presentTimeUs == if hasMuxers then nowUs else old(presentTimeUs)
    {
      if !hasMuxers {
        return false;
      }
      presentTimeUs := nowUs;
      ok := codecsStart;
    }

    method Pause(nowUs: int)
      modifies this`pauseTimeUs
      ensures pauseTimeUs == nowUs
    {
      pauseTimeUs := nowUs;
    }

    /**
     * `resume`: the clock moves forward by the time since the pause, so a
     * frame at the resume instant gets the presentation time a frame at
     * the pause instant had.
     */
    method Resume(nowUs: int)
      modifies this`presentTimeUs, this`pauseTimeUs
      ensures nowUs - presentTimeUs == old(pauseTimeUs) - old(presentTimeUs)
      ensures pauseTimeUs == 0
    {
      var resumeTime := nowUs - pauseTimeUs;
      presentTimeUs := presentTimeUs + resumeTime;
      pauseTimeUs := 0;
    }

    /**
     * `onGetRgbaFrame`, `onGetYuvNV21Frame` and `onGetArgbFrame`: an
     * accepted frame is converted and submitted (the software encoder only
     * takes RGBA; a colour format outside the two YUV layouts makes the
     * conversion throw), then a weak spell ends with a resume notice; a
     * rejected frame reports weak, every time.
     */
    method OnGetVideoFrame(source: FrameSource, cacheCount: Option<int>, nowUs: int) returns (fault: Option<Fault>)
      modifies this`networkWeakTriggered, this`notices, this`submitted
      ensures !Accepts(cacheCount) ==>
        fault.None? && submitted == old(submitted) &&
        (networkWeakTriggered, notices) == (Gate(old(networkWeakTriggered), false).0, old(notices) + Gate(old(networkWeakTriggered), false).1)
      ensures Accepts(cacheCount) && isSoftEncoder && source != Rgba ==>
        fault == Some(UnsupportedOperation) && unchanged(this)
      ensures Accepts(cacheCount) && !isSoftEncoder && colorFormat != COLOR_FORMAT_YUV420_PLANAR && colorFormat != COLOR_FORMAT_YUV420_SEMI_PLANAR ==>
        fault == Some(IllegalState) && unchanged(this)
      ensures fault.None? && Accepts(cacheCount) ==>
        submitted == old(submitted) + [VideoFrame(nowUs - presentTimeUs)] &&
        (networkWeakTriggered, notices) == (Gate(old(networkWeakTriggered), true).0, old(notices) + Gate(old(networkWeakTriggered), true).1)
    {
      if Accepts(cacheCount) {
        var pts := nowUs - presentTimeUs;
        if isSoftEncoder {
          if source != Rgba {
            return Some(UnsupportedOperation);
          }
        } else if colorFormat != COLOR_FORMAT_YUV420_PLANAR && colorFormat != COLOR_FORMAT_YUV420_SEMI_PLANAR {
          return Some(IllegalState);
        }
        submitted := submitted + [VideoFrame(pts)];
        if networkWeakTriggered {
          networkWeakTriggered := false;
          notices := notices + [NetworkResume];
        } else {
          assert notices + [] == notices;
        }
      } else {
        notices := notices + [NetworkWeak];
        networkWeakTriggered := true;
      }
      fault := None;
    }

    /** `onGetPcmFrame`: the same cache test, but no notices either way. */
    method OnGetPcmFrame(cacheCount: Option<int>, nowUs: int)
      modifies this`submitted
      ensures submitted == old(submitted) + (if Accepts(cacheCount) then [PcmFrame(nowUs - presentTimeUs)] else [])
    {
      if Accepts(cacheCount) {
        var pts := nowUs - presentTimeUs;
        submitted := submitted + [PcmFrame(pts)];
      }
    }

    method SwitchToSoftEncoder()
      modifies this`isSoftEncoder
      ensures isSoftEncoder
    {
      isSoftEncoder := true;
    }

    method SwitchToHardEncoder()
      modifies this`isSoftEncoder
      ensures !isSoftEncoder
    {
      isSoftEncoder := false;
    }

    method SetPreviewResolution(width: int, height: int)
      modifies this`preview
      ensures preview == Size(width, height)
    {
      preview := Size(width, height);
    }

    /** The portrait pair is the given one, the landscape pair its transpose, and the output the given size. */
    method SetPortraitResolution(width: int, height: int)
      modifies this`output, this`portrait, this`landscape
      ensures Valid()
      ensures output == Size(width, height) && portrait == output && landscape == output.Transposed()
    {
      output := Size(width, height);
      portrait := Size(width, height);
      landscape := Size(height, width);
    }

    /** The landscape pair is the given one, the portrait pair its transpose, and the output the given size. */
    method SetLandscapeResolution(width: int, height: int)
      modifies this`output, this`portrait, this`landscape
      ensures Valid()
      ensures output == Size(width, height) && landscape == output && portrait == output.Transposed()
    {
      output := Size(width, height);
      landscape := Size(width, height);
      portrait := Size(height, width);
    }

    /** The output takes the pair for the orientation; an unknown orientation leaves it. */
    method SetScreenOrientation(orientation: int)
      requires Valid()
      modifies this`output
      ensures Valid()
      ensures output == if orientation == ORIENTATION_PORTRAIT then portrait
                        else if orientation == ORIENTATION_LANDSCAPE then landscape
                        else old(output)
    {
      if orientation == ORIENTATION_PORTRAIT {
        output := portrait;
      } else if orientation == ORIENTATION_LANDSCAPE {
        output := landscape;
      }
    }
  }
}
