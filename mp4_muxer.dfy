/**
 * The recording side of `SrsMp4Muxer`: the Annex B demuxer of its own
 * `SrsRawH264Stream` (zero runs before `00 00 01`, frames running to the
 * next such prefix), the SPS/PPS it remembers for the movie box, and the
 * gate that lets frames into the write queue only while recording, not
 * paused, and from a key frame on.
 */
module Mp4Muxer {
  import opened Base
  import FlvCodec

  const VIDEO_TRACK: int := 100
  const AUDIO_TRACK: int := 101

  // ---------------------------------------------------------------------
  // Annex B prefixes
  // ---------------------------------------------------------------------

  /**
   * `n` bytes from `pos` are a start-code prefix: zero bytes ending in
   * `00 00 01`, with at least one byte after it.
   */
  ghost predicate AnnexbPrefix(s: seq<byte>, pos: int, n: int)
  {
    0 <= pos && 3 <= n && pos + n < |s| &&
    (forall i :: pos <= i < pos + n - 1 ==> s[i] == 0) && s[pos + n - 1] == 1
  }

  /**
   * `srs_avc_startswith_annexb` from scan index `p` on (all bytes from
   * `pos` to `p` already zero): the prefix length, or none at the first
   * non-zero pair or three bytes before the end.
   */
  function StartsWith(s: seq<byte>, pos: int, p: int): (r: Option<int>)
    requires 0 <= pos <= p
    ensures r.Some? ==> p + 3 - pos <= r.value && pos + r.value < |s|
    decreases |s| - p
  {
    if p >= |s| - 3 then None
    else if s[p] != 0 || s[p + 1] != 0 then None
    else if s[p + 2] == 1 then Some(p + 3 - pos)
    else StartsWith(s, pos, p + 1)
  }

  lemma {:induction false} StartsWithFrom(s: seq<byte>, pos: int, p: int)
    requires 0 <= pos <= p <= |s|
    requires forall i :: pos <= i < p ==> s[i] == 0
    ensures StartsWith(s, pos, p).Some? ==> AnnexbPrefix(s, pos, StartsWith(s, pos, p).value)
    ensures forall n :: AnnexbPrefix(s, pos, n) && p <= pos + n - 3 ==> StartsWith(s, pos, p) == Some(n)
    decreases |s| - p
  {
    if p < |s| - 3 && s[p] == 0 && s[p + 1] == 0 && s[p + 2] != 1 {
      StartsWithFrom(s, pos, p + 1);
      forall n | AnnexbPrefix(s, pos, n) && p <= pos + n - 3
        ensures p + 1 <= pos + n - 3
      {
        assert s[pos + n - 1] == 1;
      }
    } else if p < |s| - 3 && s[p] == 0 && s[p + 1] == 0 {
      forall n | AnnexbPrefix(s, pos, n) && p <= pos + n - 3
        ensures n == p + 3 - pos
      {
      }
    }
  }

  /**
   * The search finds exactly the start-code prefix at `pos`, when there is
   * one, and its length covers the whole zero run.
   */
  lemma StartsWithPrefix(s: seq<byte>, pos: int)
    requires 0 <= pos <= |s|
    ensures forall n :: StartsWith(s, pos, pos) == Some(n) <==> AnnexbPrefix(s, pos, n)
  {
    StartsWithFrom(s, pos, pos);
  }

  /** `srs_avc_startswith_annexb`, reading the buffer by absolute index from its position. */
  method SearchAnnexb(bb: ByteBuffer) returns (matched: bool, nbStartCode: int)
    requires bb.Valid()
    ensures matched == StartsWith(bb.content, bb.position, bb.position).Some?
    ensures nbStartCode == (if matched then StartsWith(bb.content, bb.position, bb.position).value else 0)
  {
    var s := bb.content;
    matched := false;
    nbStartCode := 0;
    var pos := bb.position;
    while pos < |s| - 3
      invariant bb.position <= pos
      invariant StartsWith(s, bb.position, pos) == StartsWith(s, bb.position, bb.position)
      decreases |s| - pos
    {
      if s[pos] != 0 || s[pos + 1] != 0 {
        break;
      }
      if s[pos + 2] == 1 {
        matched := true;
        nbStartCode := pos + 3 - bb.position;
        break;
      }
      pos := pos + 1;
    }
  }

  /** The end of the frame starting at `p`: the next index with a start-code prefix, or the end. */
  function FrameEnd(s: seq<byte>, p: int): (e: int)
    requires 0 <= p <= |s|
    ensures p <= e <= |s|
    decreases |s| - p
  {
    if p == |s| then p
    else if StartsWith(s, p, p).Some? then p
    else FrameEnd(s, p + 1)
  }

  /** A demuxed frame: the buffer slice it starts, how many bytes of it it has, and whether the prefix was missing. */
  datatype Demuxed = Demuxed(frame: FlvCodec.FrameBytes, next: int, notMatched: bool)

  /**
   * `annexb_demux` from `pos`: skip the start-code prefix (none when it is
   * missing, which is reported), then take bytes up to the next prefix.
   */
  function AnnexbDemux(s: seq<byte>, pos: int): Demuxed
    requires 0 <= pos <= |s|
  {
    if pos == |s| then Demuxed(FlvCodec.FrameBytes(None, 0), pos, false)
    else
      var sc := StartsWith(s, pos, pos);
      var start := pos + (if sc.Some? then sc.value else 0);
      var end := FrameEnd(s, start);
      Demuxed(FlvCodec.FrameBytes(Some(s[start..]), end - start), end, sc.None?)
  }

  /**
   * Every demux step inside the buffer moves forward; the frame is what
   * follows the start-code prefix at `pos` (or starts at `pos` when there
   * is none, which is reported), no prefix begins inside it, and one
   * begins where it ends unless that is the end of the buffer.
   */
  lemma AnnexbDemuxFrame(s: seq<byte>, pos: int)
    requires 0 <= pos < |s|
    ensures var d := AnnexbDemux(s, pos);
      var start := d.next - d.frame.size;
      pos < d.next <= |s| && pos <= start && d.frame.Readable() && d.frame.data == Some(s[start..]) &&
      (d.notMatched <==> forall n :: !AnnexbPrefix(s, pos, n)) &&
      (d.notMatched ==> start == pos) &&
      (!d.notMatched ==> AnnexbPrefix(s, pos, start - pos)) &&
      (forall q :: start <= q < d.next ==> StartsWith(s, q, q).None?) &&
      (d.next < |s| ==> StartsWith(s, d.next, d.next).Some?)
  {
    StartsWithPrefix(s, pos);
    var sc := StartsWith(s, pos, pos);
    var start := pos + (if sc.Some? then sc.value else 0);
    FrameEndScan(s, start);
  }

  /** A demux step inside the buffer moves forward and yields a readable frame. */
  lemma AnnexbDemuxAdvances(s: seq<byte>, pos: int)
    requires 0 <= pos < |s|
    ensures pos < AnnexbDemux(s, pos).next <= |s| && AnnexbDemux(s, pos).frame.Readable()
  {
    AnnexbDemuxFrame(s, pos);
  }

  lemma {:induction false} FrameEndScan(s: seq<byte>, p: int)
    requires 0 <= p <= |s|
    ensures forall q :: p <= q < FrameEnd(s, p) ==> StartsWith(s, q, q).None?
    ensures FrameEnd(s, p) < |s| ==> StartsWith(s, FrameEnd(s, p), FrameEnd(s, p)).Some?
    decreases |s| - p
  {
    if p < |s| && StartsWith(s, p, p).None? {
      FrameEndScan(s, p + 1);
    }
  }

  /** `annexb_demux`: the frame at the buffer's position, which moves to the frame's end. */
  method DemuxAnnexb(bb: ByteBuffer) returns (frame: FlvCodec.FrameBytes, notMatched: bool)
    requires bb.Valid()
    modifies bb`position
    ensures bb.Valid()
    ensures Demuxed(frame, bb.position, notMatched) == AnnexbDemux(bb.content, old(bb.position))
  {
    frame := FlvCodec.FrameBytes(None, 0);
    notMatched := false;
    if bb.position < |bb.content| {
      var matched, nb := SearchAnnexb(bb);
      if !matched || nb < 3 {
        notMatched := true;
      }
      var i := 0;
      while i < nb
        invariant 0 <= i <= nb && bb.Valid()
        invariant bb.position == old(bb.position) + i
      {
        var _ := bb.Get();
        i := i + 1;
      }
      var start := bb.position;
      var data := bb.Remaining();
      while bb.position < |bb.content|
        invariant bb.Valid() && start <= bb.position
        invariant FrameEnd(bb.content, bb.position) == FrameEnd(bb.content, start)
        decreases |bb.content| - bb.position
      {
        var m, _ := SearchAnnexb(bb);
        if m {
          break;
        }
        var _ := bb.Get();
      }
      frame := FlvCodec.FrameBytes(Some(data), bb.position - start);
    }
  }

  // ---------------------------------------------------------------------
  // Remembered parameter sets
  // ---------------------------------------------------------------------

  /** `is_sps` / `is_pps`: a non-empty frame whose NAL header has the given type. */
  predicate IsNal(f: FlvCodec.FrameBytes, nalType: int)
  {
    f.size >= 1 && f.data.Some? && |f.data.value| >= 1 && FlvCodec.NalUnitType(f.data.value[0]) == nalType
  }

  /** `h264_sps`, `h264_pps` and the one-element lists handed to the movie box. */
  datatype H264Params = H264Params(sps: Option<seq<byte>>, pps: Option<seq<byte>>,
                                   spsList: seq<seq<byte>>, ppsList: seq<seq<byte>>)
  {
    /** The lists hold exactly the remembered set, which is a NAL of the right type. */
    ghost predicate Ok()
    {
      spsList == (if sps.Some? then [sps.value] else []) &&
      ppsList == (if pps.Some? then [pps.value] else []) &&
      (sps.Some? ==> |sps.value| >= 1 && FlvCodec.NalUnitType(sps.value[0]) == FlvCodec.NAL_SPS) &&
      (pps.Some? ==> |pps.value| >= 1 && FlvCodec.NalUnitType(pps.value[0]) == FlvCodec.NAL_PPS)
    }

    /**
     * One demuxed frame: an SPS (or PPS) frame whose slice differs from
     * the remembered one replaces it, by its first `size` bytes.
     */
    function Take(f: FlvCodec.FrameBytes): H264Params
      requires f.Readable()
    {
      if IsNal(f, FlvCodec.NAL_SPS) then
        if Some(f.data.value) != sps then this.(sps := Some(f.Bytes()), spsList := [f.Bytes()]) else this
      else if IsNal(f, FlvCodec.NAL_PPS) then
        if Some(f.data.value) != pps then this.(pps := Some(f.Bytes()), ppsList := [f.Bytes()]) else this
      else this
    }
  }

  lemma TakeKeepsOk(p: H264Params, f: FlvCodec.FrameBytes)
    requires p.Ok() && f.Readable()
    ensures p.Take(f).Ok()
  {
    if IsNal(f, FlvCodec.NAL_SPS) || IsNal(f, FlvCodec.NAL_PPS) {
      assert f.Bytes()[0] == f.data.value[0];
    }
  }

  /** What the handler is told. */
  datatype RecordEvent = RecordStarted | RecordPaused | RecordResumed | RecordIllegalArgument | RecordFinished

  /**
   * The demux loop of `writeVideoSample` from `pos`: the parameter sets
   * kept, and the handler events after `events`.
   */
  function ScanParameterSets(s: seq<byte>, pos: int, p: H264Params, events: seq<RecordEvent>): (H264Params, seq<RecordEvent>)
    requires 0 <= pos <= |s|
    decreases |s| - pos
  {
    if pos == |s| then (p, events)
    else
      var d := AnnexbDemux(s, pos);
      AnnexbDemuxAdvances(s, pos);
      ScanParameterSets(s, d.next, p.Take(d.frame), events + (if d.notMatched then [RecordIllegalArgument] else []))
  }

  /** Events that extend `events + extra` by reports only extend `events` by reports only, when `extra` is reports. */
  lemma ReportsOnlyExtend(events: seq<RecordEvent>, extra: seq<RecordEvent>, all: seq<RecordEvent>)
    requires forall i :: 0 <= i < |extra| ==> extra[i] == RecordIllegalArgument
    requires |events + extra| <= |all| && all[..|events + extra|] == events + extra
    requires forall i :: |events + extra| <= i < |all| ==> all[i] == RecordIllegalArgument
    ensures |events| <= |all| && all[..|events|] == events
    ensures forall i :: |events| <= i < |all| ==> all[i] == RecordIllegalArgument
  {
    assert all[..|events + extra|][..|events|] == all[..|events|];
    forall i | |events| <= i < |events + extra|
      ensures all[i] == RecordIllegalArgument
    {
      assert all[i] == all[..|events + extra|][i] == extra[i - |events|];
    }
  }

  /**
   * Scanning keeps the parameter sets well formed, keeps the events
   * already sent, and adds nothing but reports of a missing prefix.
   */
  lemma {:induction false} ScanKeepsOk(s: seq<byte>, pos: int, p: H264Params, events: seq<RecordEvent>)
    requires 0 <= pos <= |s| && p.Ok()
    ensures var r := ScanParameterSets(s, pos, p, events);
      r.0.Ok() && |events| <= |r.1| && r.1[..|events|] == events &&
      forall i :: |events| <= i < |r.1| ==> r.1[i] == RecordIllegalArgument
    decreases |s| - pos
  {
    if pos < |s| {
      var d := AnnexbDemux(s, pos);
      AnnexbDemuxAdvances(s, pos);
      TakeKeepsOk(p, d.frame);
      var extra := if d.notMatched then [RecordIllegalArgument] else [];
      ScanKeepsOk(s, d.next, p.Take(d.frame), events + extra);
      assert ScanParameterSets(s, pos, p, events) == ScanParameterSets(s, d.next, p.Take(d.frame), events + extra);
      ReportsOnlyExtend(events, extra, ScanParameterSets(s, d.next, p.Take(d.frame), events + extra).1);
    }
  }

  // ---------------------------------------------------------------------
  // The recorder
  // ---------------------------------------------------------------------

  /** `SrsEsFrame`: a buffer handed to the writer, its track and whether it is a key frame. */
  datatype EsFrame = EsFrame(track: int, isKeyFrame: bool, data: seq<byte>, ptsUs: int)
  {
    predicate IsVideo()
    {
      track == VIDEO_TRACK
    }
  }

  /** The recorder's flags, write queue, remembered parameter sets and handler events. */
  datatype RecorderState = RecorderState(
    recording: bool,
    paused: bool,
    needKey: bool,
    aacSpecConfig: bool,
    cache: seq<EsFrame>,
    params: H264Params,
    events: seq<RecordEvent>,
    hasWorker: bool)
  {
    /** `writeFrameByte`: queue the frame while recording and not paused, from a key frame on. */
    function Offer(f: EsFrame): RecorderState
    {
      if recording && !paused then
        if needKey then
          if f.isKeyFrame then this.(needKey := false, cache := cache + [f]) else this
        else this.(cache := cache + [f])
      else this
    }

    /** `writeAudioSample`: the first buffer after stop only marks the AAC configuration as seen. */
    function AudioOffered(data: seq<byte>, ptsUs: int): RecorderState
    {
      if !aacSpecConfig then this.(aacSpecConfig := true)
      else Offer(EsFrame(AUDIO_TRACK, false, data, ptsUs))
    }

    /** `writeVideoSample` on buffer `s` read from `pos`: the fault, the new state and the new position. */
    function VideoOffered(s: seq<byte>, pos: int, ptsUs: int): (Option<Fault>, RecorderState, int)
      requires 0 <= pos <= |s|
    {
      if |s| <= 4 then (Some(IndexOutOfBounds), this, pos)
      else
        var nal := FlvCodec.NalUnitType(s[4]);
        if nal == FlvCodec.NAL_IDR || nal == FlvCodec.NAL_NON_IDR then
          (None, Offer(EsFrame(VIDEO_TRACK, nal == FlvCodec.NAL_IDR, s, ptsUs)), pos)
        else
          var r := ScanParameterSets(s, pos, params, events);
          (None, this.(params := r.0, events := r.1), |s|)
    }

    /** The recorder's invariant: nothing is queued or paused unless recording, and the parameter sets are well formed. */
    ghost predicate Ok()
    {
      (!recording ==> cache == [] && !paused) && params.Ok()
    }
  }

  /** `writeFrameByte` for each frame in turn. */
  function OfferEach(st: RecorderState, fs: seq<EsFrame>): RecorderState
    decreases |fs|
  {
    if fs == [] then st else OfferEach(st.Offer(fs[0]), fs[1..])
  }

  /** Nothing is queued, and no flag moves, unless recording and not paused. */
  lemma {:induction false} OfferEachIdle(st: RecorderState, fs: seq<EsFrame>)
    requires !st.recording || st.paused
    ensures OfferEach(st, fs) == st
    decreases |fs|
  {
    if fs != [] {
      OfferEachIdle(st.Offer(fs[0]), fs[1..]);
    }
  }

  /**
   * While a key frame is awaited, the frames queued start with a key
   * frame; what was queued before stays in front.
   */
  lemma {:induction false} OfferEachKeyFirst(st: RecorderState, fs: seq<EsFrame>)
    requires st.needKey
    ensures var c := OfferEach(st, fs).cache;
      |st.cache| <= |c| && c[..|st.cache|] == st.cache &&
      (|c| > |st.cache| ==> c[|st.cache|].isKeyFrame)
    decreases |fs|
  {
    if fs != [] {
      var st' := st.Offer(fs[0]);
      if st'.needKey {
        OfferEachKeyFirst(st', fs[1..]);
      } else {
        OfferEachGrows(st', fs[1..]);
        var c := OfferEach(st', fs[1..]).cache;
        assert st'.cache == st.cache + [fs[0]];
        assert c[..|st'.cache|][..|st.cache|] == c[..|st.cache|];
      }
    }
  }

  /** Queueing only appends. */
  lemma {:induction false} OfferEachGrows(st: RecorderState, fs: seq<EsFrame>)
    ensures |st.cache| <= |OfferEach(st, fs).cache|
    ensures OfferEach(st, fs).cache[..|st.cache|] == st.cache
    decreases |fs|
  {
    if fs != [] {
      var st' := st.Offer(fs[0]);
      OfferEachGrows(st', fs[1..]);
      var c := OfferEach(st', fs[1..]).cache;
      assert st'.cache[..|st.cache|] == st.cache;
      assert c[..|st'.cache|][..|st.cache|] == c[..|st.cache|];
    }
  }

  /** Once a key frame has been let in, every frame is queued in order while recording and not paused. */
  lemma {:induction false} OfferEachOpen(st: RecorderState, fs: seq<EsFrame>)
    requires st.recording && !st.paused && !st.needKey
    ensures OfferEach(st, fs).cache == st.cache + fs
    decreases |fs|
  {
    if fs != [] {
      OfferEachOpen(st.Offer(fs[0]), fs[1..]);
      assert st.cache + [fs[0]] + fs[1..] == st.cache + fs;
    }
  }

  /**
   * Audio is never a key frame, so a recording that is still waiting for
   * its first key frame queues nothing from audio alone: a recording
   * without video stays empty.
   */
  lemma {:induction false} AudioOnlyQueuesNothing(st: RecorderState, fs: seq<EsFrame>)
    requires st.needKey
    requires forall i :: 0 <= i < |fs| ==> !fs[i].isKeyFrame
    ensures OfferEach(st, fs) == st
    decreases |fs|
  {
    if fs != [] {
      AudioOnlyQueuesNothing(st.Offer(fs[0]), fs[1..]);
    }
  }

  /** The first audio buffer after construction or stop is dropped; later ones are offered as non-key frames. */
  lemma FirstAudioDropped(st: RecorderState, data: seq<byte>, ptsUs: int)
    ensures !st.aacSpecConfig ==> st.AudioOffered(data, ptsUs) == st.(aacSpecConfig := true)
    ensures st.aacSpecConfig ==> (st.AudioOffered(data, ptsUs).cache ==
      st.cache + (if st.recording && !st.paused && !st.needKey then [EsFrame(AUDIO_TRACK, false, data, ptsUs)] else []))
  {
  }

  /**
   * A picture NAL (IDR or non-IDR, read at byte 4) is offered as a video
   * frame, key exactly when IDR; any other buffer only updates the
   * parameter sets, keeping them well formed, and queues nothing.
   */
  lemma VideoOfferedKeepsOk(st: RecorderState, s: seq<byte>, pos: int, ptsUs: int)
    requires st.Ok() && 0 <= pos <= |s|
    ensures var r := st.VideoOffered(s, pos, ptsUs);
      r.1.Ok() && (r.0.Some? <==> |s| <= 4) &&
      (r.0.None? && r.1.cache != st.cache ==>
        r.1.cache == st.cache + [EsFrame(VIDEO_TRACK, FlvCodec.NalUnitType(s[4]) == FlvCodec.NAL_IDR, s, ptsUs)] &&
        FlvCodec.NalUnitType(s[4]) in {FlvCodec.NAL_IDR, FlvCodec.NAL_NON_IDR})
  {
    if |s| > 4 {
      var nal := FlvCodec.NalUnitType(s[4]);
      if !(nal == FlvCodec.NAL_IDR || nal == FlvCodec.NAL_NON_IDR) {
        ScanKeepsOk(s, pos, st.params, st.events);
      }
    }
  }

  class Recorder {
    var bRecording: bool
    var bPaused: bool
    var needToFindKeyFrame: bool
    var aacSpecConfig: bool
    var frameCache: seq<EsFrame>
    var h264Sps: Option<seq<byte>>
    var h264Pps: Option<seq<byte>>
    var spsList: seq<seq<byte>>
    var ppsList: seq<seq<byte>>
    var events: seq<RecordEvent>
    var worker: bool
    var hasVideoFormat: bool
    var hasAudioFormat: bool

    function Params(): H264Params
      reads this
    {
      H264Params(h264Sps, h264Pps, spsList, ppsList)
    }

    function State(): RecorderState
      reads this
    {
      RecorderState(bRecording, bPaused, needToFindKeyFrame, aacSpecConfig, frameCache, Params(), events, worker)
    }

    ghost predicate Valid()
      reads this
    {
      State().Ok()
    }

    constructor()
      ensures Valid() && !hasVideoFormat && !hasAudioFormat
      ensures State() == RecorderState(false, false, true, false, [], H264Params(None, None, [], []), [], false)
    {
      bRecording := false;
      bPaused := false;
      needToFindKeyFrame := true;
      aacSpecConfig := false;
      frameCache := [];
      h264Sps := None;
      h264Pps := None;
      spsList := [];
      ppsList := [];
      events := [];
      worker := false;
      hasVideoFormat := false;
      hasAudioFormat := false;
    }

    /** `addTrack`: the H.264 format becomes the video track, any other the audio track. */
    method AddTrack(isVideoMime: bool) returns (track: int)
      modifies this`hasVideoFormat, this`hasAudioFormat
      ensures track == (if isVideoMime then VIDEO_TRACK else AUDIO_TRACK)
      ensures hasVideoFormat == (old(hasVideoFormat) || isVideoMime)
      ensures hasAudioFormat == (old(hasAudioFormat) || !isVideoMime)
    {
      if isVideoMime {
        hasVideoFormat := true;
        track := VIDEO_TRACK;
      } else {
        hasAudioFormat := true;
        track := AUDIO_TRACK;
      }
    }

    /**
     * `record`: refused without any format; otherwise the movie gets a
     * video track (when the parameter sets are known) and an audio track
     * (when there is an audio format), and recording begins.
     */
    method Record() returns (ok: bool, tracks: seq<int>)
      requires Valid()
      modifies this`events, this`worker, this`bRecording
      ensures Valid() && hasVideoFormat == old(hasVideoFormat) && hasAudioFormat == old(hasAudioFormat)
      ensures ok <==> old(hasVideoFormat) || old(hasAudioFormat)
      ensures !ok ==> State() == old(State()) && tracks == []
      ensures ok ==> State() == old(State()).(recording := true, hasWorker := true, events := old(events) + [RecordStarted])
      ensures ok ==> (tracks ==
        (if hasVideoFormat && spsList != [] && ppsList != [] then [VIDEO_TRACK] else []) +
        (if hasAudioFormat then [AUDIO_TRACK] else []))
    {
      tracks := [];
      if !hasVideoFormat && !hasAudioFormat {
        return false, tracks;
      }
      events := events + [RecordStarted];
      if spsList != [] && ppsList != [] && hasVideoFormat {
        tracks := tracks + [VIDEO_TRACK];
      }
      if hasAudioFormat {
        tracks := tracks + [AUDIO_TRACK];
      }
      worker := true;
      bRecording := true;
      ok := true;
      assert Params() == old(Params());
    }

    /** `pause`: takes effect only while recording. */
    method Pause()
      requires Valid()
      modifies this`bPaused, this`events
      ensures Valid()
      ensures State() == if old(bRecording) then old(State()).(paused := true, events := old(events) + [RecordPaused])
                         else old(State())
    {
      if bRecording {
        bPaused := true;
        events := events + [RecordPaused];
      }
    }

    /** `resume`: while recording, unpause and wait for a key frame again. */
    method Resume()
      requires Valid()
      modifies this`bPaused, this`needToFindKeyFrame, this`events
      ensures Valid()
      ensures State() == if old(bRecording)
                         then old(State()).(paused := false, needKey := true, events := old(events) + [RecordResumed])
                         else old(State())
    {
      if bRecording {
        bPaused := false;
        needToFindKeyFrame := true;
        events := events + [RecordResumed];
      }
    }

    /** `stop`: clear the flags and the queue; a running recording is finished. */
    method Stop()
      requires Valid()
      modifies this`bRecording, this`bPaused, this`needToFindKeyFrame, this`aacSpecConfig, this`frameCache, this`worker, this`events
      ensures Valid() && hasVideoFormat == old(hasVideoFormat) && hasAudioFormat == old(hasAudioFormat)
      ensures State() == old(State()).(recording := false, paused := false, needKey := true, aacSpecConfig := false,
                                       cache := [], hasWorker := false,
                                       events := old(events) + (if old(worker) then [RecordFinished] else []))
    {
      bRecording := false;
      bPaused := false;
      needToFindKeyFrame := true;
      aacSpecConfig := false;
      frameCache := [];
      if worker {
        worker := false;
        events := events + [RecordFinished];
      }
      assert Params() == old(Params());
    }

    /** `writeFrameByte`. */
    method WriteFrameByte(track: int, data: seq<byte>, ptsUs: int, isKeyFrame: bool)
      requires Valid()
      modifies this`needToFindKeyFrame, this`frameCache
      ensures Valid()
      ensures State() == old(State()).Offer(EsFrame(track, isKeyFrame, data, ptsUs))
    {
      var frame := EsFrame(track, isKeyFrame, data, ptsUs);
      if bRecording && !bPaused {
        if needToFindKeyFrame {
          if frame.isKeyFrame {
            needToFindKeyFrame := false;
            frameCache := frameCache + [frame];
          }
        } else {
          frameCache := frameCache + [frame];
        }
      }
    }

    /** `writeAudioSample`. */
    method WriteAudioSample(data: seq<byte>, ptsUs: int)
      requires Valid()
      modifies this`aacSpecConfig, this`needToFindKeyFrame, this`frameCache
      ensures Valid()
      ensures State() == old(State()).AudioOffered(data, ptsUs)
    {
      if !aacSpecConfig {
        aacSpecConfig := true;
      } else {
        WriteFrameByte(AUDIO_TRACK, data, ptsUs, false);
      }
    }

    /** `writeVideoSample`: a picture is offered; otherwise the buffer is scanned for SPS and PPS. */
    method WriteVideoSample(bb: ByteBuffer, ptsUs: int) returns (fault: Option<Fault>)
      requires Valid() && bb.Valid()
      modifies this`needToFindKeyFrame, this`frameCache, this`h264Sps, this`h264Pps, this`spsList, this`ppsList, this`events, bb`position
      ensures Valid() && bb.Valid()
      ensures hasVideoFormat == old(hasVideoFormat) && hasAudioFormat == old(hasAudioFormat)
      ensures (fault, State(), bb.position) == old(State()).VideoOffered(bb.content, old(bb.position), ptsUs)
    {
      VideoOfferedKeepsOk(State(), bb.content, bb.position, ptsUs);
      if |bb.content| <= 4 {
        return Some(IndexOutOfBounds);
      }
      fault := None;
      var nal := FlvCodec.NalUnitType(bb.content[4]);
      if nal == FlvCodec.NAL_IDR || nal == FlvCodec.NAL_NON_IDR {
        WriteFrameByte(VIDEO_TRACK, bb.content, ptsUs, nal == FlvCodec.NAL_IDR);
      } else {
        ScanBuffer(bb);
      }
    }

    /** `writeVideoSample`'s demux loop: the buffer is read to its end, keeping the SPS and PPS found. */
    method ScanBuffer(bb: ByteBuffer)
      requires Valid() && bb.Valid()
      modifies this`h264Sps, this`h264Pps, this`spsList, this`ppsList, this`events, bb`position
      ensures Valid() && bb.Valid()
      ensures (Params(), events) == ScanParameterSets(bb.content, old(bb.position), old(Params()), old(events))
      ensures bb.position == Max(old(bb.position), |bb.content|)
    {
      ghost var p0, e0, pos0 := Params(), events, bb.position;
      while bb.position < |bb.content|
        invariant bb.Valid() && pos0 <= bb.position && Valid()
        invariant ScanParameterSets(bb.content, bb.position, Params(), events) == ScanParameterSets(bb.content, pos0, p0, e0)
        decreases |bb.content| - bb.position
      {
        StoreParameterSet(bb);
      }
    }

    /**
     * One round of `writeVideoSample`'s demux loop: the next frame is
     * demuxed, a missing prefix is reported, and an SPS or PPS frame
     * replaces the remembered one.
     */
    method StoreParameterSet(bb: ByteBuffer)
      requires Valid() && bb.Valid() && bb.position < |bb.content|
      modifies this`h264Sps, this`h264Pps, this`spsList, this`ppsList, this`events, bb`position
      ensures Valid() && bb.Valid()
      ensures var d := AnnexbDemux(bb.content, old(bb.position));
        bb.position == d.next && d.frame.Readable() && Params() == old(Params()).Take(d.frame) &&
        events == old(events) + (if d.notMatched then [RecordIllegalArgument] else [])
    {
      ghost var here := bb.position;
      AnnexbDemuxAdvances(bb.content, here);
      var frame, notMatched := DemuxAnnexb(bb);
      TakeKeepsOk(Params(), frame);
      if notMatched {
        events := events + [RecordIllegalArgument];
      }
      if IsNal(frame, FlvCodec.NAL_SPS) {
        if Some(frame.data.value) != h264Sps {
          var sps := frame.data.value[..frame.size];
          h264Sps := Some(sps);
          spsList := [sps];
        }
        return;
      }
      if IsNal(frame, FlvCodec.NAL_PPS) {
        if Some(frame.data.value) != h264Pps {
          var pps := frame.data.value[..frame.size];
          h264Pps := Some(pps);
          ppsList := [pps];
        }
      }
    }

    /** `writeSampleData`: the video track's buffers go to the video writer, all others to the audio writer. */
    method WriteSampleData(trackIndex: int, bb: ByteBuffer, ptsUs: int) returns (fault: Option<Fault>)
      requires Valid() && bb.Valid()
      modifies this, bb`position
      ensures Valid() && bb.Valid()
      ensures trackIndex != VIDEO_TRACK ==>
        fault.None? && State() == old(State()).AudioOffered(bb.content, ptsUs) && bb.position == old(bb.position)
      ensures trackIndex == VIDEO_TRACK ==>
        (fault, State(), bb.position) == old(State()).VideoOffered(bb.content, old(bb.position), ptsUs)
    {
      if trackIndex == VIDEO_TRACK {
        fault := WriteVideoSample(bb, ptsUs);
      } else {
        WriteAudioSample(bb.content, ptsUs);
        fault := None;
      }
    }

    /** The worker's `frameCache.poll()`: the oldest queued frame, if any. */
    method Poll() returns (frame: Option<EsFrame>)
      requires Valid()
      modifies this`frameCache
      ensures Valid()
      ensures old(frameCache) == [] ==> frame.None? && frameCache == []
      ensures old(frameCache) != [] ==> frame == Some(old(frameCache)[0]) && frameCache == old(frameCache)[1..]
    {
      if frameCache == [] {
        return None;
      }
      frame := Some(frameCache[0]);
      frameCache := frameCache[1..];
    }
  }
}
