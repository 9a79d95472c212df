/**
 * The pure side of `SrsFlvMuxer`: the queued tag, the key-frame gate, the
 * worker's drain as a function, and what `writeVideoSample` and
 * `writeAudioSample` make of a buffer.
 */
module FlvTags {
  import opened Base
  import opened FlvCodec

  const VIDEO_TRACK: int := 100
  const AUDIO_TRACK: int := 101

  /** `SrsFlvFrame`: a queued tag (its bytes) with the fields the gates look at. */
  datatype FlvFrame = FlvFrame(tag: seq<byte>, avcAacType: int, frameType: int, tagType: int, dts: int)
  {
    predicate IsVideo()
    {
      tagType == TAG_VIDEO
    }

    predicate IsAudio()
    {
      tagType == TAG_AUDIO
    }

    predicate IsKeyFrame()
    {
      IsVideo() && frameType == KEY_FRAME
    }

    predicate IsSequenceHeader()
    {
      avcAacType == 0
    }
  }

  /** `(bi.presentationTimeUs / 1000).toInt()`: milliseconds, truncated, as a 32-bit Int. */
  function Dts(ptsUs: int): int
  {
    ToInt32(TruncDiv(ptsUs, 1000))
  }

  // ---------------------------------------------------------------------
  // The key-frame gate of writeRtmpPacket / flvTagCacheAdd
  // ---------------------------------------------------------------------

  /**
   * The gate of `writeRtmpPacket` and `flvTagCacheAdd`: whether `f` is
   * queued, and `needToFindKeyFrame` afterwards. A key frame clears the
   * flag even when the muxer is not started and the frame is dropped.
   */
  function Admit(needKey: bool, started: bool, f: FlvFrame): (r: (bool, bool))
    ensures r.0 ==> started && (f.IsVideo() || f.IsAudio())
    ensures r.0 && f.IsVideo() && needKey ==> f.IsKeyFrame()
    ensures f.IsAudio() ==> r.0 == started && r.1 == needKey
    ensures r.1 <==> needKey && !f.IsKeyFrame()
  {
    if f.IsVideo() then
      if needKey then (f.IsKeyFrame() && started, !f.IsKeyFrame())
      else (started, false)
    else (f.IsAudio() && started, needKey)
  }

  /** The frames a started muxer queues when `fs` are offered in order. */
  function Gate(needKey: bool, fs: seq<FlvFrame>): seq<FlvFrame>
  {
    if fs == [] then []
    else
      var r := Admit(needKey, true, fs[0]);
      (if r.0 then [fs[0]] else []) + Gate(r.1, fs[1..])
  }

  function FirstVideo(fs: seq<FlvFrame>): Option<FlvFrame>
  {
    if fs == [] then None
    else if fs[0].IsVideo() then Some(fs[0])
    else FirstVideo(fs[1..])
  }

  /** From a fresh start, the first video tag queued is a key frame. */
  lemma {:induction false} GateStartsWithKeyFrame(fs: seq<FlvFrame>)
    ensures FirstVideo(Gate(true, fs)).Some? ==> FirstVideo(Gate(true, fs)).value.IsKeyFrame()
  {
    if fs != [] {
      var f := fs[0];
      var q := Gate(true, fs);
      if f.IsVideo() {
        if f.IsKeyFrame() {
          assert q[0] == f;
        } else {
          assert q == Gate(true, fs[1..]);
          GateStartsWithKeyFrame(fs[1..]);
        }
      } else if f.IsAudio() {
        assert q == [f] + Gate(true, fs[1..]);
        assert q[1..] == Gate(true, fs[1..]);
        GateStartsWithKeyFrame(fs[1..]);
      } else {
        assert q == Gate(true, fs[1..]);
        GateStartsWithKeyFrame(fs[1..]);
      }
    }
  }

  /** Once a key frame went through, every audio and video tag is queued. */
  lemma {:induction false} GateOpenKeepsAll(fs: seq<FlvFrame>)
    requires forall i :: 0 <= i < |fs| ==> fs[i].IsVideo() || fs[i].IsAudio()
    ensures Gate(false, fs) == fs
  {
    if fs != [] {
      GateOpenKeepsAll(fs[1..]);
      assert [fs[0]] + fs[1..] == fs;
    }
  }

  /**
   * The queue side of `SrsFlvMuxer`: whether it is started, whether it
   * waits for a key frame, the queued tags, and how many video tags were
   * queued.
   */
  datatype GateState = GateState(started: bool, needKey: bool, cache: seq<FlvFrame>, videoCount: int)
  {
    /** No video tag waits while a key frame is awaited; nothing waits in a stopped muxer. */
    ghost predicate Ok()
    {
      (needKey ==> forall i :: 0 <= i < |cache| ==> !cache[i].IsVideo()) &&
      (!started ==> cache == [])
    }

    /** `writeRtmpPacket` and `flvTagCacheAdd` for one tag. */
    function Offer(f: FlvFrame): (g: GateState)
      ensures Ok() ==> g.Ok()
    {
      var r := Admit(needKey, started, f);
      GateState(started, r.1, cache + (if r.0 then [f] else []),
                videoCount + (if r.0 && f.IsVideo() then 1 else 0))
    }

    /** Offers the tag a writer produced, if it produced one. */
    function OfferOpt(t: Option<FlvFrame>): GateState
    {
      if t.Some? then Offer(t.value) else this
    }
  }

  /** Offering `fs` one after another. */
  function OfferEach(g: GateState, fs: seq<FlvFrame>): GateState
    decreases |fs|
  {
    if fs == [] then g else OfferEach(g.Offer(fs[0]), fs[1..])
  }

  /**
   * In a started muxer, offering tags one by one queues exactly what the
   * gate lets through, after what was already queued.
   */
  lemma {:induction false} OfferEachQueuesGate(g: GateState, fs: seq<FlvFrame>)
    requires g.started
    ensures OfferEach(g, fs).cache == g.cache + Gate(g.needKey, fs)
    decreases |fs|
  {
    if fs != [] {
      var g' := g.Offer(fs[0]);
      OfferEachQueuesGate(g', fs[1..]);
      var r := Admit(g.needKey, true, fs[0]);
      assert g'.cache == g.cache + (if r.0 then [fs[0]] else []);
      assert Gate(g.needKey, fs) == (if r.0 then [fs[0]] else []) + Gate(r.1, fs[1..]);
    }
  }

  // ---------------------------------------------------------------------
  // The worker's drain of the queue
  // ---------------------------------------------------------------------

  /** The worker's view: the remembered sequence headers and what it sent on this connection. */
  datatype PumpState = PumpState(videoHeader: Option<FlvFrame>, audioHeader: Option<FlvFrame>, sent: seq<FlvFrame>)

  /** One polled frame: a sequence header is remembered and sent; other tags need their kind's header. */
  function PumpOne(st: PumpState, f: FlvFrame): PumpState
  {
    if f.IsSequenceHeader() then
      if f.IsVideo() then PumpState(Some(f), st.audioHeader, st.sent + [f])
      else if f.IsAudio() then PumpState(st.videoHeader, Some(f), st.sent + [f])
      else st
    else if f.IsVideo() && st.videoHeader.Some? then st.(sent := st.sent + [f])
    else if f.IsAudio() && st.audioHeader.Some? then st.(sent := st.sent + [f])
    else st
  }

  /** Draining `fs` front to back. */
  function Pump(st: PumpState, fs: seq<FlvFrame>): PumpState
    decreases |fs|
  {
    if fs == [] then st else Pump(PumpOne(st, fs[0]), fs[1..])
  }

  ghost predicate SentHeaderOf(sent: seq<FlvFrame>, video: bool, before: int)
  {
    exists j :: 0 <= j < before && j < |sent| && sent[j].IsSequenceHeader() &&
      (if video then sent[j].IsVideo() else sent[j].IsAudio())
  }

  /**
   * On a connection, every data tag sent comes after a sequence header of
   * its kind, and a remembered header was itself sent.
   */
  ghost predicate HeadersFirst(st: PumpState)
  {
    (forall i :: 0 <= i < |st.sent| && !st.sent[i].IsSequenceHeader() ==>
      (st.sent[i].IsVideo() ==> SentHeaderOf(st.sent, true, i)) &&
      (st.sent[i].IsAudio() ==> SentHeaderOf(st.sent, false, i))) &&
    (st.videoHeader.Some? ==> SentHeaderOf(st.sent, true, |st.sent|)) &&
    (st.audioHeader.Some? ==> SentHeaderOf(st.sent, false, |st.sent|))
  }

  lemma SentHeaderGrows(sent: seq<FlvFrame>, f: FlvFrame, video: bool, before: int)
    requires SentHeaderOf(sent, video, before)
    ensures SentHeaderOf(sent + [f], video, before)
    ensures SentHeaderOf(sent + [f], video, |sent| + 1)
  {
    var j :| 0 <= j < before && j < |sent| && sent[j].IsSequenceHeader() &&
      (if video then sent[j].IsVideo() else sent[j].IsAudio());
    assert (sent + [f])[j] == sent[j];
  }

  lemma PumpOneKeepsHeadersFirst(st: PumpState, f: FlvFrame)
    requires HeadersFirst(st)
    ensures HeadersFirst(PumpOne(st, f))
  {
    var st' := PumpOne(st, f);
    if st'.sent != st.sent {
      assert st'.sent == st.sent + [f];
      var n := |st.sent|;
      forall i | 0 <= i < |st'.sent| && !st'.sent[i].IsSequenceHeader()
        ensures st'.sent[i].IsVideo() ==> SentHeaderOf(st'.sent, true, i)
        ensures st'.sent[i].IsAudio() ==> SentHeaderOf(st'.sent, false, i)
      {
        if i < n {
          assert st'.sent[i] == st.sent[i];
          if st.sent[i].IsVideo() {
            SentHeaderGrows(st.sent, f, true, i);
          }
          if st.sent[i].IsAudio() {
            SentHeaderGrows(st.sent, f, false, i);
          }
        } else {
          assert st'.sent[i] == f;
          if f.IsVideo() {
            SentHeaderGrows(st.sent, f, true, n);
          }
          if f.IsAudio() {
            SentHeaderGrows(st.sent, f, false, n);
          }
        }
      }
      if st'.videoHeader.Some? {
        if st.videoHeader.Some? && st'.videoHeader == st.videoHeader {
          SentHeaderGrows(st.sent, f, true, n);
        } else {
          assert st'.sent[n] == f && f.IsVideo() && f.IsSequenceHeader();
        }
      }
      if st'.audioHeader.Some? {
        if st.audioHeader.Some? && st'.audioHeader == st.audioHeader {
          SentHeaderGrows(st.sent, f, false, n);
        } else {
          assert st'.sent[n] == f && f.IsAudio() && f.IsSequenceHeader();
        }
      }
    }
  }

  /** Draining keeps every data tag behind a sequence header of its kind. */
  lemma {:induction false} PumpKeepsHeadersFirst(st: PumpState, fs: seq<FlvFrame>)
    requires HeadersFirst(st)
    ensures HeadersFirst(Pump(st, fs))
    decreases |fs|
  {
    if fs != [] {
      PumpOneKeepsHeadersFirst(st, fs[0]);
      PumpKeepsHeadersFirst(PumpOne(st, fs[0]), fs[1..]);
    }
  }

  /** With both headers remembered, the drain sends every audio and video tag, in order. */
  lemma {:induction false} PumpSendsAllOnceHeadersKnown(st: PumpState, fs: seq<FlvFrame>)
    requires st.videoHeader.Some? && st.audioHeader.Some?
    requires forall i :: 0 <= i < |fs| ==> fs[i].IsVideo() || fs[i].IsAudio()
    ensures Pump(st, fs).sent == st.sent + fs
    ensures Pump(st, fs).videoHeader.Some? && Pump(st, fs).audioHeader.Some?
    decreases |fs|
  {
    if fs != [] {
      var st' := PumpOne(st, fs[0]);
      assert st'.sent == st.sent + [fs[0]];
      PumpSendsAllOnceHeadersKnown(st', fs[1..]);
      assert st.sent + [fs[0]] + fs[1..] == st.sent + fs;
    }
  }

  /** Drain in two parts: the polled prefix, then the rest. */
  lemma PumpStep(st: PumpState, fs: seq<FlvFrame>)
    requires fs != []
    ensures Pump(st, fs) == Pump(PumpOne(st, fs[0]), fs[1..])
  {
  }

  // ---------------------------------------------------------------------
  // What writeVideoSample does with a buffer
  // ---------------------------------------------------------------------

  /** How `writeVideoSample` classifies a buffer by the NAL after its first start code. */
  datatype VideoInput =
    | TooShort                                     // fewer than four bytes: ignored
    | NoStartCode                                  // `frame.data!!` on a failed header search
    | Picture(frame: FrameBytes, frameType: int)   // an IDR (key) or non-IDR (inter) slice
    | ParameterSetsAt(frame: FrameBytes, next: int) // an SPS or PPS; `next` is the position after it
    | OtherNal                                     // any other NAL type: ignored

  function ClassifyVideo(s: seq<byte>, pos: int): (v: VideoInput)
    requires 0 <= pos <= |s|
    ensures v.Picture? ==> (v.frame.Readable() && v.frame.size >= 1 &&
      (v.frameType == KEY_FRAME <==> NalUnitType(v.frame.data.value[0]) == NAL_IDR) &&
      (v.frameType == INTER_FRAME <==> NalUnitType(v.frame.data.value[0]) == NAL_NON_IDR))
    ensures v.ParameterSetsAt? ==> (v.frame.Readable() && 0 <= v.next < |s| &&
      v.frame.data.value == s[v.next..] && v.frame.size == |s| - v.next &&
      NalUnitType(s[v.next]) in {NAL_SPS, NAL_PPS})
    ensures v.TooShort? <==> |s| < 4
  {
    if |s| < 4 then TooShort
    else
      var d := Demux(s, pos, true);
      var frame := d.0;
      if frame.data.None? then NoStartCode
      else
        var nal := NalUnitType(frame.data.value[0]);
        if nal == NAL_IDR then Picture(frame, KEY_FRAME)
        else if nal == NAL_SPS || nal == NAL_PPS then ParameterSetsAt(frame, d.1)
        else if nal == NAL_NON_IDR then Picture(frame, INTER_FRAME)
        else OtherNal
  }

  /** No start code begins at any index of `lo .. hi-1`. */
  ghost predicate NoStartCodeIn(s: seq<byte>, lo: int, hi: int)
    requires 0 <= lo
  {
    forall j :: lo <= j < hi && j + 4 <= |s| ==> !StartCodeAt(s, j)
  }

  const START_CODE_4: seq<byte> := [0, 0, 0, 1]

  /**
   * An encoder's parameter-set buffer `00 00 00 01 SPS 00 00 00 01 PPS`,
   * with no start code inside either set, is split into exactly that SPS
   * and that PPS. The PPS is stored exactly when it differs from the one
   * held, and the SPS whenever the held one is not the whole rest of the
   * buffer.
   */
  lemma ParameterSetsSplit(sps: seq<byte>, pps: seq<byte>, avc: AvcState)
    requires |sps| >= 1 && |pps| >= 1 && NalUnitType(sps[0]) in {NAL_SPS, NAL_PPS}
    requires var s := START_CODE_4 + sps + START_CODE_4 + pps;
      NoStartCodeIn(s, 4, 4 + |sps|) && NoStartCodeIn(s, 8 + |sps|, |s|)
    ensures var s := START_CODE_4 + sps + START_CODE_4 + pps;
      var v := ClassifyVideo(s, 0);
      v.ParameterSetsAt? && v.next == 4 &&
      var r := ParameterSetsStored(avc, s, v.frame, v.next);
      r.fault.None? && r.avc.pps == Some(pps) && (r.ppsStored <==> avc.pps != Some(pps)) &&
      (avc.sps != Some(s[4..]) ==> r.avc.sps == Some(sps))
  {
    var s := START_CODE_4 + sps + START_CODE_4 + pps;
    var k := 4 + |sps|;
    assert s[..4] == START_CODE_4;
    assert s[k..k + 4] == START_CODE_4;
    assert s[4..k] == sps;
    assert s[k + 4..] == pps;
    assert StartCodeAt(s, 0) && StartCodeEnd(s, 0) == 4;
    var d := Demux(s, 0, true);
    assert d.1 == 4;
    assert d.0.data.value[0] == sps[0];
    var v := ClassifyVideo(s, 0);
    assert v == ParameterSetsAt(d.0, 4);
    assert StartCodeAt(s, k) && StartCodeEnd(s, k) == k + 4;
    assert FirstStartCode(s, 4) == Some(k) by {
      FirstStartCodeSkips(s, 4, k);
    }
    var dp := Demux(s, 4, false);
    assert dp.1 == k + 4 && dp.0.size == |pps| && dp.0.data == Some(pps);
    assert FirstStartCode(s, k + 4).None? by {
      FirstStartCodeNone(s, k + 4);
    }
    assert d.0.size - dp.0.size - 4 == |sps|;
    assert d.0.data.value[..|sps|] == sps;
    assert dp.0.data.value[..|pps|] == pps;
  }

  lemma FirstStartCodeSkips(s: seq<byte>, from: int, k: int)
    requires 0 <= from <= k && k + 4 < |s| && StartCodeAt(s, k)
    requires forall j :: from <= j < k ==> !StartCodeAt(s, j)
    ensures FirstStartCode(s, from) == Some(k)
    decreases k - from
  {
    if from < k {
      FirstStartCodeSkips(s, from + 1, k);
    }
  }

  lemma FirstStartCodeNone(s: seq<byte>, from: int)
    requires 0 <= from
    requires forall j :: from <= j < |s| - 4 ==> !StartCodeAt(s, j)
    ensures FirstStartCode(s, from).None?
    decreases |s| - from
  {
    if from < |s| - 4 {
      FirstStartCodeNone(s, from + 1);
    }
  }

  /** The tag queued for a coded picture: its length prefix and the NAL, as AVC NALU. */
  function PictureTag(frame: FrameBytes, frameType: int, dts: int): FlvFrame
    requires frame.Readable()
  {
    FlvFrame(VideoTag([MuxNaluHeader(frame), frame], frameType, AVC_NALU, dts, dts), AVC_NALU, frameType, TAG_VIDEO, dts)
  }

  /** The tag queued for the AVC sequence header, typed as a key frame. */
  function SequenceHeaderTag(sps: seq<byte>, pps: seq<byte>, dts: int, pts: int): FlvFrame
    requires |sps| >= 4
  {
    FlvFrame(VideoTag(SequenceHeaderFrames(sps, pps).value, KEY_FRAME, AVC_SEQUENCE_HEADER, dts, pts),
             AVC_SEQUENCE_HEADER, KEY_FRAME, TAG_VIDEO, dts)
  }

  /** The tag queued for an AAC sample, in an allocation of `max(size + 2, 4096)` bytes. */
  function AudioFrame(sample: seq<byte>, configured: bool, rate: int, channels: int, dts: int): FlvFrame
    requires configured || |sample| >= 1
  {
    FlvFrame(AudioTag(sample, configured, rate, channels, Max(|sample| + 2, AUDIO_ALLOC_SIZE)),
             if configured then 1 else 0, 0, TAG_AUDIO, dts)
  }

  /**
   * How the gates see the tags the muxer makes: a tag is never both video
   * and audio, and a key frame is a video tag; the AVC sequence header is
   * a video key frame and a sequence header; a picture is a video tag that
   * is a key frame exactly for an IDR slice and never a sequence header;
   * an audio tag is a sequence header exactly for the first sample.
   */
  lemma TagKinds(f: FlvFrame, frame: FrameBytes, frameType: int, sps: seq<byte>, pps: seq<byte>,
                 sample: seq<byte>, configured: bool, rate: int, channels: int, dts: int)
    requires frame.Readable() && |sps| >= 4 && (configured || |sample| >= 1)
    ensures !(f.IsVideo() && f.IsAudio()) && (f.IsKeyFrame() ==> f.IsVideo())
    ensures var h := SequenceHeaderTag(sps, pps, dts, dts); h.IsVideo() && h.IsKeyFrame() && h.IsSequenceHeader()
    ensures var p := PictureTag(frame, frameType, dts);
      p.IsVideo() && !p.IsSequenceHeader() && (p.IsKeyFrame() <==> frameType == KEY_FRAME)
    ensures var a := AudioFrame(sample, configured, rate, channels, dts);
      a.IsAudio() && !a.IsKeyFrame() && (a.IsSequenceHeader() <==> !configured)
  {
  }

  /** The exception `writeAudioSample` raises, if any. */
  function AudioFault(s: seq<byte>, pos: int, configured: bool): Option<Fault>
  {
    if !configured && |s| == 0 then Some(IndexOutOfBounds)
    else if configured && pos > 0 then Some(BufferUnderflow)
    else None
  }

  // ---------------------------------------------------------------------
  // The remuxer's writers as functions of its state
  // ---------------------------------------------------------------------

  /**
   * The H.264 side of `SrsFlv`: the stored SPS and PPS, their change
   * flags, and whether a sequence header went out since the last reset.
   */
  datatype AvcState = AvcState(sps: Option<seq<byte>>, pps: Option<seq<byte>>,
                               spsChanged: bool, ppsChanged: bool, headerSent: bool)
  {
    /** A sequence header counts as sent only once both parameter sets are known. */
    ghost predicate Ok()
    {
      headerSent ==> sps.Some? && pps.Some?
    }

    /**
     * `writeH264SpsPps` has work to do: both parameter sets are known and
     * the header was not sent since the reset, or one of them changed.
     */
    predicate HeaderDue()
    {
      !(headerSent && !spsChanged && !ppsChanged) && sps.Some? && pps.Some?
    }
  }

  /** The AAC side of `SrsFlv`: the track's channels and rate, and whether its config went out. */
  datatype AacState = AacState(channels: int, sampleRate: int, configGot: bool)

  /** What a writer did: the exception it raised, the remuxer's new state, the tag it offered. */
  datatype Written<S> = Written(fault: Option<Fault>, state: S, tag: Option<FlvFrame>)

  /**
   * `writeH264SpsPps`: when a header is due, the sequence header of the
   * stored sets is offered as a key frame and the flags settle, so that no
   * second header is due until a set changes.
   */
  function SpsPpsWritten(avc: AvcState, dts: int, pts: int): (w: Written<AvcState>)
    ensures avc.Ok() ==> w.state.Ok()
    ensures w.tag.Some? ==> w.state.headerSent && !w.state.HeaderDue() && w.tag.value.IsSequenceHeader()
    ensures w.tag.None? ==> w.state == avc
    ensures w.fault.Some? <==> avc.HeaderDue() && |avc.sps.value| < 4
  {
    if !avc.HeaderDue() then Written(None, avc, None)
    else if |avc.sps.value| < 4 then Written(Some(IndexOutOfBounds), avc, None)
    else Written(None, avc.(spsChanged := false, ppsChanged := false, headerSent := true),
                 Some(SequenceHeaderTag(avc.sps.value, avc.pps.value, dts, pts)))
  }

  /** The outcome of the stores in the SPS/PPS branch of `writeVideoSample`. */
  datatype Stored = Stored(fault: Option<Fault>, avc: AvcState, ppsStored: bool)

  /**
   * The SPS/PPS branch of `writeVideoSample` up to `writeH264SpsPps`. The
   * SPS is what follows the first start code, less the PPS frame and a
   * 4-byte start code; the PPS is what follows the next start code, less
   * an SEI frame and a 3-byte start code when an SEI comes next. Each is
   * stored and marked changed when the buffer view differs from the stored
   * one (`ByteBuffer.equals` compares the remaining bytes, which for the
   * SPS run to the end of the buffer). A new SPS is kept even when the PPS
   * part then raises.
   */
  function ParameterSetsStored(avc: AvcState, s: seq<byte>, frame: FrameBytes, next: int): (r: Stored)
    requires 0 <= next <= |s| && frame.data == Some(s[next..]) && frame.size == |s| - next
    ensures avc.Ok() ==> r.avc.Ok()
    ensures r.avc.headerSent == avc.headerSent
    ensures r.ppsStored ==> r.fault.None? && r.avc.sps.Some? && r.avc.pps.Some? && r.avc.ppsChanged
    ensures !r.ppsStored ==> r.avc.pps == avc.pps && r.avc.ppsChanged == avc.ppsChanged
  {
    var dp := Demux(s, next, false);
    var spsSize := frame.size - dp.0.size - 4;
    if frame.data != avc.sps && spsSize < 0 then Stored(Some(NegativeArraySize), avc, false)
    else
      var avc1 := if frame.data != avc.sps then avc.(sps := Some(frame.data.value[..spsSize]), spsChanged := true) else avc;
      PpsStored(avc1, dp.0, Demux(s, dp.1, false).0)
  }

  /** The PPS half of `ParameterSetsStored`, once the SPS is settled. */
  function PpsStored(avc: AvcState, framePps: FrameBytes, frameSei: FrameBytes): (r: Stored)
    requires framePps.data.Some? ==> framePps.Readable()
    requires frameSei.data.Some? ==> frameSei.Readable()
    requires frameSei.data.None? ==> frameSei.size == 0
    ensures avc.Ok() ==> r.avc.Ok()
    ensures r.ppsStored ==> r.fault.None? && r.avc == avc.(pps := r.avc.pps, ppsChanged := true) && r.avc.pps.Some?
    ensures !r.ppsStored ==> r.avc == avc
  {
    var ppsSize :=
      if frameSei.size > 0 && NalUnitType(frameSei.data.value[0]) == NAL_SEI
      then framePps.size - frameSei.size - 3
      else framePps.size;
    if framePps.data == avc.pps then Stored(None, avc, false)
    else if ppsSize < 0 then Stored(Some(NegativeArraySize), avc, false)
    else if framePps.data.None? then Stored(Some(NullPointer), avc, false)
    else Stored(None, avc.(pps := Some(framePps.data.value[..ppsSize]), ppsChanged := true), true)
  }

  /** The whole SPS/PPS branch: the stores, then `writeH264SpsPps` when a new PPS was stored. */
  function ParameterSetsWritten(avc: AvcState, s: seq<byte>, frame: FrameBytes, next: int, dts: int): Written<AvcState>
    requires 0 <= next <= |s| && frame.data == Some(s[next..]) && frame.size == |s| - next
  {
    var r := ParameterSetsStored(avc, s, frame, next);
    if r.ppsStored then SpsPpsWritten(r.avc, dts, dts) else Written(r.fault, r.avc, None)
  }

  /**
   * `writeVideoSample`: a coded picture is offered as an AVC NALU tag once
   * a sequence header went out and dropped before; parameter sets go
   * through `ParameterSetsWritten`; anything else is ignored.
   */
  function VideoWritten(avc: AvcState, s: seq<byte>, pos: int, ptsUs: int): Written<AvcState>
    requires 0 <= pos <= |s|
  {
    var dts := Dts(ptsUs);
    match ClassifyVideo(s, pos)
    case TooShort => Written(None, avc, None)
    case NoStartCode => Written(Some(NullPointer), avc, None)
    case OtherNal => Written(None, avc, None)
    case Picture(frame, frameType) =>
      Written(None, avc, if avc.headerSent then Some(PictureTag(frame, frameType, dts)) else None)
    case ParameterSetsAt(frame, next) => ParameterSetsWritten(avc, s, frame, next, dts)
  }

  /** `writeAudioSample`: the first sample after a reset is the AAC sequence header, later ones raw AAC. */
  function AudioWritten(aac: AacState, s: seq<byte>, pos: int, ptsUs: int): Written<AacState>
  {
    var fault := AudioFault(s, pos, aac.configGot);
    if fault.Some? then Written(fault, aac, None)
    else Written(None, aac.(configGot := true),
                 Some(AudioFrame(s, aac.configGot, aac.sampleRate, aac.channels, Dts(ptsUs))))
  }

  /**
   * The video writer keeps the remuxer's invariant, and offers a coded
   * picture only after a sequence header went out: any tag it offers
   * leaves a header sent, and one that is not a sequence header found it
   * already sent and changed nothing.
   */
  lemma VideoWrittenAfterHeader(avc: AvcState, s: seq<byte>, pos: int, ptsUs: int)
    requires 0 <= pos <= |s|
    ensures var w := VideoWritten(avc, s, pos, ptsUs);
      (avc.Ok() ==> w.state.Ok()) &&
      (w.tag.Some? ==> w.state.headerSent && w.tag.value.IsVideo()) &&
      (w.tag.Some? && !w.tag.value.IsSequenceHeader() ==> avc.headerSent && w.state == avc)
  {
    var v := ClassifyVideo(s, pos);
    if v.ParameterSetsAt? {
      var r := ParameterSetsStored(avc, s, v.frame, v.next);
      if r.ppsStored {
        var w := SpsPpsWritten(r.avc, Dts(ptsUs), Dts(ptsUs));
        if w.tag.Some? {
          assert w.tag.value == SequenceHeaderTag(r.avc.sps.value, r.avc.pps.value, Dts(ptsUs), Dts(ptsUs));
        }
      }
    }
  }

  /**
   * The sequence-header tag reads back as a key-frame AVC tag whose body
   * is the AVCDecoderConfigurationRecord of exactly the stored SPS and PPS.
   */
  lemma SequenceHeaderTagFields(sps: seq<byte>, pps: seq<byte>, dts: int, pts: int)
    requires 4 <= |sps| < TWO_16 && |pps| < TWO_16
    ensures var t := SequenceHeaderTag(sps, pps, dts, pts).tag;
      t[0] / 16 == KEY_FRAME && t[0] % 16 == CODEC_AVC && t[1] == AVC_SEQUENCE_HEADER &&
      FromBigEndian(t[2..5]) == (pts - dts) % TWO_24 &&
      ParseAvcConfig(t[5..]) == Some(AvcConfig(sps[1], 0, sps[3], 4, sps, pps))
  {
    SequenceHeaderParses(sps, pps);
    VideoTagFields(SequenceHeaderFrames(sps, pps).value, KEY_FRAME, AVC_SEQUENCE_HEADER, dts, pts);
  }

  /**
   * A picture tag reads back as an AVC NALU of its frame type with a zero
   * composition time, and its body is the NAL unit behind a 4-byte length.
   */
  lemma PictureTagFields(frame: FrameBytes, frameType: int, dts: int)
    requires frame.Readable() && frame.size < TWO_32 && frameType in {KEY_FRAME, INTER_FRAME}
    ensures var t := PictureTag(frame, frameType, dts).tag;
      t[0] / 16 == frameType && t[0] % 16 == CODEC_AVC && t[1] == AVC_NALU &&
      FromBigEndian(t[2..5]) == 0 &&
      t[5..] == BigEndian(frame.size, 4) + frame.Bytes() && FromBigEndian(t[5..9]) == frame.size
  {
    NaluTagBody(frame, frameType, dts, dts);
    VideoTagFields([MuxNaluHeader(frame), frame], frameType, AVC_NALU, dts, dts);
    var t := PictureTag(frame, frameType, dts).tag;
    assert t[5..9] == t[5..][..4];
  }

  /**
   * The audio writer offers its first tag after a reset as the AAC
   * sequence header, with the AudioSpecificConfig of the sample's first
   * byte, and every later one as raw AAC carrying the sample unchanged.
   */
  lemma AudioWrittenConfigFirst(aac: AacState, s: seq<byte>, pos: int, ptsUs: int)
    ensures var w := AudioWritten(aac, s, pos, ptsUs);
      w.fault.None? ==> (w.state.configGot && w.tag.Some? && w.tag.value.IsAudio() &&
        (w.tag.value.IsSequenceHeader() <==> !aac.configGot) &&
        (!aac.configGot ==> w.tag.value.tag[2..4] == AudioSpecificConfig(s[0], aac.sampleRate, aac.channels)) &&
        (aac.configGot ==> w.tag.value.tag[2..] == s))
  {
    var w := AudioWritten(aac, s, pos, ptsUs);
    if w.fault.None? && !aac.configGot {
      var n := Max(|s| + 2, AUDIO_ALLOC_SIZE);
      var t := AudioTag(s, false, aac.sampleRate, aac.channels, n);
      assert t[2..4] == AudioSpecificConfig(s[0], aac.sampleRate, aac.channels);
    }
  }
}
