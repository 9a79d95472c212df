/**
 * `SrsFlvMuxer` together with its inner `SrsFlv`: the gates that decide
 * which FLV tags reach the queue (the key-frame wait, the sequence-header
 * wait), the handling of parameter sets, the audio path, and the worker's
 * drain of the queue as one sequential step. Each writer is proved to do
 * what the matching function of `FlvTags` says.
 */
module FlvMuxer {
  import opened Base
  import opened SrsAllocator
  import opened FlvCodec
  import opened FlvTags

  /** Both pools are sound, disjoint, with no allocation held, and sized as the muxer sizes them. */
  ghost predicate PoolsReady(vp: Pool, ap: Pool)
    reads vp, vp.Repr, ap, ap.Repr
  {
    vp.Repr !! ap.Repr &&
    vp.Valid() && vp.NoHoles() && vp.PooledEmpty() &&
    ap.Valid() && ap.NoHoles() && ap.PooledEmpty() &&
    vp.individualAllocationSize == VIDEO_ALLOC_SIZE &&
    ap.individualAllocationSize == AUDIO_ALLOC_SIZE
  }

  /** `muxFlvTag` as the video writers use it: the tag's bytes, from a fresh allocation of the video pool. */
  method MuxVideoTag(vp: Pool, ap: Pool, frames: seq<FrameBytes>, frameType: int, packetType: int, dts: int, pts: int)
    returns (tag: seq<byte>)
    requires PoolsReady(vp, ap) && AllReadable(frames)
    modifies vp.slots
    ensures PoolsReady(vp, ap)
    ensures tag == VideoTag(frames, frameType, packetType, dts, pts)
  {
    var a := MuxFlvTag(vp, frames, frameType, packetType, dts, pts);
    tag := a.data[..a.size];
  }

  /** `muxFlvTag` then `writeRtmpPacket` for a video tag: the tag is offered to the gate. */
  method QueueVideoTag(m: Muxer, frames: seq<FrameBytes>, frameType: int, packetType: int, dts: int, pts: int)
    requires m.Valid() && PoolsReady(m.videoPool, m.audioPool) && AllReadable(frames)
    modifies m, m.videoPool.slots
    ensures m.Valid() && PoolsReady(m.videoPool, m.audioPool) && m.WorkerUnchanged()
    ensures m.Gate() == old(m.Gate()).Offer(FlvFrame(VideoTag(frames, frameType, packetType, dts, pts), packetType, frameType, TAG_VIDEO, dts))
  {
    var tag := MuxVideoTag(m.videoPool, m.audioPool, frames, frameType, packetType, dts, pts);
    m.WriteRtmpPacket(TAG_VIDEO, dts, frameType, packetType, tag);
  }

  /**
   * The audio half of `writeAudioSample`: a fresh allocation of `size + 2`
   * bytes from the audio pool, filled as `FillAudioTag` says.
   */
  method MuxAudioTag(vp: Pool, ap: Pool, bb: ByteBuffer, configured: bool, rate: int, channels: int)
    returns (fault: Option<Fault>, tag: seq<byte>)
    requires PoolsReady(vp, ap)
    requires bb.Valid() && bb !in vp.Repr && bb !in ap.Repr
    modifies ap.slots, bb`position
    ensures PoolsReady(vp, ap) && bb.Valid()
    ensures fault == AudioFault(bb.content, old(bb.position), configured)
    ensures fault.None? ==> tag == AudioFrame(bb.content, configured, rate, channels, 0).tag
  {
    var a := AllocateNew(ap, |bb.content| + 2);
    fault := FillAudioTag(a, bb, configured, rate, channels);
    tag := a.data[..a.size];
  }

  /** `writeAdtsHeader`: the seven ADTS bytes for this array's length, at `offset`. */
  method WriteAdtsHeader(frame: array<byte>, offset: int)
    requires frame.Length >= 2 && 0 <= offset && offset + 7 <= frame.Length
    modifies frame
    ensures frame[..] == old(frame[..])[..offset] + AdtsHeader(frame.Length) + old(frame[..])[offset + 7..]
  {
    CopyInto(AdtsHeader(frame.Length), frame, offset);
  }

  /**
   * The body of an audio tag written into a fresh allocation: before the
   * AAC configuration is known, the AudioSpecificConfig of the first byte
   * and an ADTS header (packet type 0); afterwards the raw sample read
   * from the buffer (packet type 1). The FLV audio header goes first.
   */
  method FillAudioTag(a: Allocation, bb: ByteBuffer, configured: bool, rate: int, channels: int)
    returns (fault: Option<Fault>)
    requires a.Valid() && a.size == 0 && a.data.Length == Max(|bb.content| + 2, AUDIO_ALLOC_SIZE)
    requires bb.Valid()
    modifies a, a.data, bb`position
    ensures a.Valid() && bb.Valid()
    ensures fault == AudioFault(bb.content, old(bb.position), configured)
    ensures fault.None? ==> a.Contents() == AudioFrame(bb.content, configured, rate, channels, 0).tag
  {
    var size := |bb.content|;
    if !configured {
      if size == 0 {
        return Some(IndexOutOfBounds);
      }
      var asc := AudioSpecificConfig(bb.content[0], rate, channels);
      a.PutAt(asc[0], 2);
      a.PutAt(asc[1], 3);
      WriteAdtsHeader(a.data, 4);
      a.AppendOffset(7);
      assert a.data[2..11] == asc + AdtsHeader(a.data.Length);
    } else {
      if bb.position + size > |bb.content| {
        return Some(BufferUnderflow);
      }
      var bytes := bb.GetBytes(size);
      CopyInto(bytes, a.data, 2);
      a.AppendOffset(size + 2);
      assert a.data[2..size + 2] == bb.content;
    }
    PutAudioHeader(a, AudioTagHeader(rate, channels), if configured then 1 else 0);
    fault := None;
  }

  /** The two-byte FLV audio header written in front of an audio body already in place. */
  method PutAudioHeader(a: Allocation, header: byte, packetType: byte)
    requires a.Valid() && 2 <= a.size
    modifies a, a.data
    ensures a.Valid() && a.size == old(a.size) && a.data == old(a.data)
    ensures a.Contents() == [header, packetType] + old(a.Contents())[2..]
  {
    ghost var body := a.data[2..a.size];
    a.PutAt(header, 0);
    a.PutAt(packetType, 1);
    assert a.data[2..a.size] == body;
    assert a.data[..a.size] == a.data[..2] + a.data[2..a.size];
  }


  /**
   * `SrsFlvMuxer`: the tag queue with its key-frame gate, the worker's
   * connection state, and the two allocators. `writeRtmpPacket` and
   * `flvTagCacheAdd` are written inside the inner `SrsFlv` but only touch
   * this object's state, so they are methods of this class here.
   */
  class Muxer {
    var started: bool
    var connected: bool
    var needToFindKeyFrame: bool
    var videoSequenceHeader: Option<FlvFrame>
    var audioSequenceHeader: Option<FlvFrame>
    var cache: seq<FlvFrame>
    var sent: seq<FlvFrame>
    var videoFrameCacheNumber: int
    const videoPool: Pool
    const audioPool: Pool
    const flv: Remuxer

    /** The queue side of the state. */
    function Gate(): GateState
      reads this
    {
      GateState(started, needToFindKeyFrame, cache, videoFrameCacheNumber)
    }

    /** The worker's side: the remembered sequence headers and what went out on this connection. */
    function Worker(): PumpState
      reads this
    {
      PumpState(videoSequenceHeader, audioSequenceHeader, sent)
    }

    /** The muxer and its remuxer lie outside both pools; the queue and the worker keep their invariants. */
    ghost predicate Valid()
      reads this, videoPool, audioPool
    {
      this !in videoPool.Repr && this !in audioPool.Repr &&
      flv !in videoPool.Repr && flv !in audioPool.Repr &&
      Gate().Ok() && HeadersFirst(Worker())
    }

    /** The worker and its connection did not move. */
    twostate predicate WorkerUnchanged()
      reads this
    {
      Worker() == old(Worker()) && connected == old(connected)
    }

    /** A new muxer: not started, waiting for a key frame, two pools of 10 allocations each, a reset remuxer. */
    constructor ()
      ensures Valid() && PoolsReady(videoPool, audioPool) && fresh(flv) && flv.Valid()
      ensures Gate() == GateState(false, true, [], 0) && Worker() == PumpState(None, None, []) && !connected
      ensures flv.Avc() == AvcState(None, None, false, false, false) && flv.Aac() == AacState(0, 0, false)
    {
      var vp := new Pool(VIDEO_ALLOC_SIZE, 0);
      var ap := new Pool(AUDIO_ALLOC_SIZE, 0);
      var r := new Remuxer();
      started := false;
      connected := false;
      needToFindKeyFrame := true;
      videoSequenceHeader := None;
      audioSequenceHeader := None;
      cache := [];
      sent := [];
      videoFrameCacheNumber := 0;
      videoPool := vp;
      audioPool := ap;
      flv := r;
    }

    /** `addTrack`: the video codec's format goes to the video track, any other to the audio track. */
    method AddTrack(isVideoCodec: bool, channels: int, sampleRate: int) returns (track: int)
      requires Valid() && flv.Valid()
      modifies flv
      ensures Valid() && flv.Valid() && flv.Avc() == old(flv.Avc())
      ensures track == (if isVideoCodec then VIDEO_TRACK else AUDIO_TRACK)
      ensures flv.Aac() == (if isVideoCodec then old(flv.Aac()) else old(flv.Aac()).(channels := channels, sampleRate := sampleRate))
    {
      if isVideoCodec {
        track := VIDEO_TRACK;
      } else {
        flv.SetAudioTrack(channels, sampleRate);
        track := AUDIO_TRACK;
      }
    }

    /**
     * `start`: marks the muxer started; the worker's `connect` forgets both
     * sequence headers and opens a new connection, whose success is
     * `connectOk`. A failed connect leaves the muxer started, queueing
     * tags that no worker drains.
     */
    method Start(connectOk: bool)
      requires Valid()
      modifies this
      ensures Valid() && connected == connectOk
      ensures Gate() == old(Gate()).(started := true) && Worker() == PumpState(None, None, [])
    {
      started := true;
      videoSequenceHeader := None;
      audioSequenceHeader := None;
      sent := [];
      connected := connectOk;
    }

    /**
     * `stop`: not started, queue emptied, worker gone, remuxer reset,
     * waiting for a key frame again, and (`disconnect`) both sequence
     * headers forgotten.
     */
    method Stop()
      requires Valid() && flv.Valid()
      modifies this, flv
      ensures Valid() && flv.Valid() && !connected
      ensures Gate() == old(Gate()).(started := false, needKey := true, cache := [])
      ensures Worker() == PumpState(None, None, old(sent))
      ensures flv.Avc() == AvcState(Blanked(old(flv.h264Sps)), Blanked(old(flv.h264Pps)), false, false, false)
      ensures flv.Aac() == old(flv.Aac()).(configGot := false)
    {
      started := false;
      cache := [];
      connected := false;
      flv.Reset();
      needToFindKeyFrame := true;
      videoSequenceHeader := None;
      audioSequenceHeader := None;
    }

    /** `sendFlvTag`: a video or audio tag goes to the publisher. */
    method SendFlvTag(f: FlvFrame)
      modifies this`sent
      ensures sent == old(sent) + (if f.IsVideo() || f.IsAudio() then [f] else [])
    {
      if f.IsVideo() {
        sent := sent + [f];
      } else if f.IsAudio() {
        sent := sent + [f];
      }
    }

    /** The worker polls the head of the queue and sends it as `PumpOne` says. */
    method PollOne()
      requires Valid() && cache != []
      modifies this
      ensures Valid() && connected == old(connected)
      ensures Gate() == old(Gate()).(cache := old(cache)[1..])
      ensures Worker() == PumpOne(old(Worker()), old(cache)[0])
    {
      var f := cache[0];
      PumpOneKeepsHeadersFirst(Worker(), f);
      cache := cache[1..];
      if f.IsSequenceHeader() {
        if f.IsVideo() {
          videoSequenceHeader := Some(f);
          SendFlvTag(f);
        } else if f.IsAudio() {
          audioSequenceHeader := Some(f);
          SendFlvTag(f);
        }
      } else {
        if f.IsVideo() && videoSequenceHeader.Some? {
          SendFlvTag(f);
        } else if f.IsAudio() && audioSequenceHeader.Some? {
          SendFlvTag(f);
        }
      }
    }

    /**
     * One pass of the worker's inner loop: poll every queued tag and send
     * it as `Pump` says. Without a connection there is no worker to drain.
     */
    method Drain()
      requires Valid()
      modifies this
      ensures Valid() && connected == old(connected)
      ensures !old(connected) ==> Gate() == old(Gate()) && Worker() == old(Worker())
      ensures old(connected) ==> Gate() == old(Gate()).(cache := []) && Worker() == Pump(old(Worker()), old(cache))
    {
      if !connected {
        return;
      }
      ghost var target := Pump(Worker(), cache);
      while cache != []
        invariant Valid() && connected == old(connected)
        invariant Pump(Worker(), cache) == target
        invariant Gate() == old(Gate()).(cache := cache)
        decreases |cache|
      {
        PumpStep(Worker(), cache);
        PollOne();
      }
    }

    /** `flvTagCacheAdd`: only a started muxer queues; video tags are counted. */
    method FlvTagCacheAdd(f: FlvFrame)
      requires Valid()
      requires needToFindKeyFrame ==> !f.IsVideo()
      modifies this
      ensures Valid() && WorkerUnchanged()
      ensures Gate() == old(Gate()).(cache := old(cache) + (if started then [f] else []),
                                     videoCount := old(videoFrameCacheNumber) + (if started && f.IsVideo() then 1 else 0))
    {
      if started {
        cache := cache + [f];
        if f.IsVideo() {
          videoFrameCacheNumber := videoFrameCacheNumber + 1;
        }
      }
    }

    /**
     * `writeRtmpPacket`: video waits for a key frame, which clears the wait
     * whether or not it is queued; audio always goes to `flvTagCacheAdd`.
     */
    method WriteRtmpPacket(tagType: int, dts: int, frameType: int, avcAacType: int, tag: seq<byte>)
      requires Valid()
      modifies this
      ensures Valid() && WorkerUnchanged()
      ensures Gate() == old(Gate()).Offer(FlvFrame(tag, avcAacType, frameType, tagType, dts))
    {
      var f := FlvFrame(tag, avcAacType, frameType, tagType, dts);
      if f.IsVideo() {
        if needToFindKeyFrame {
          if f.IsKeyFrame() {
            needToFindKeyFrame := false;
            FlvTagCacheAdd(f);
          }
        } else {
          FlvTagCacheAdd(f);
        }
      } else if f.IsAudio() {
        FlvTagCacheAdd(f);
      }
    }

    /** `writeSampleData`: track 100 is video, any other track audio. */
    method WriteSampleData(trackIndex: int, bb: ByteBuffer, ptsUs: int) returns (fault: Option<Fault>)
      requires Valid() && flv.Valid() && PoolsReady(videoPool, audioPool)
      requires bb.Valid() && bb !in videoPool.Repr && bb !in audioPool.Repr
      modifies this, flv, videoPool.slots, audioPool.slots, bb`position
      ensures Valid() && flv.Valid() && PoolsReady(videoPool, audioPool) && bb.Valid() && WorkerUnchanged()
      ensures trackIndex == VIDEO_TRACK ==>
        var w := VideoWritten(old(flv.Avc()), bb.content, old(bb.position), ptsUs);
        fault == w.fault && flv.Avc() == w.state && flv.Aac() == old(flv.Aac()) && Gate() == old(Gate()).OfferOpt(w.tag)
      ensures trackIndex != VIDEO_TRACK ==>
        var w := AudioWritten(old(flv.Aac()), bb.content, old(bb.position), ptsUs);
        fault == w.fault && flv.Aac() == w.state && flv.Avc() == old(flv.Avc()) && Gate() == old(Gate()).OfferOpt(w.tag)
    {
      if trackIndex == VIDEO_TRACK {
        fault := flv.WriteVideoSample(this, bb, ptsUs);
      } else {
        fault := flv.WriteAudioSample(this, bb, ptsUs);
      }
    }
  }

  /**
   * `SrsFlv`: the remuxer's codec state. Its writers hand finished tags to
   * the enclosing muxer `m`, whose queue and pools they use.
   */
  class Remuxer {
    var achannel: int
    var asampleRate: int
    var h264Sps: Option<seq<byte>>
    var h264Pps: Option<seq<byte>>
    var h264SpsChanged: bool
    var h264PpsChanged: bool
    var h264SpsPpsSent: bool
    var aacSpecificConfigGot: bool

    function Avc(): AvcState
      reads this
    {
      AvcState(h264Sps, h264Pps, h264SpsChanged, h264PpsChanged, h264SpsPpsSent)
    }

    function Aac(): AacState
      reads this
    {
      AacState(achannel, asampleRate, aacSpecificConfigGot)
    }

    ghost predicate Valid()
      reads this
    {
      Avc().Ok()
    }

    /** The state the muxer's constructor leaves, after its `init { reset() }`. */
    constructor ()
      ensures Valid()
      ensures Avc() == AvcState(None, None, false, false, false) && Aac() == AacState(0, 0, false)
    {
      achannel := 0;
      asampleRate := 0;
      h264Sps := None;
      h264Pps := None;
      h264SpsChanged := false;
      h264PpsChanged := false;
      h264SpsPpsSent := false;
      aacSpecificConfigGot := false;
    }

    /** `setAudioTrack`: the channel count and sample rate of the AAC track. */
    method SetAudioTrack(channels: int, sampleRate: int)
      requires Valid()
      modifies this
      ensures Valid() && Avc() == old(Avc())
      ensures Aac() == old(Aac()).(channels := channels, sampleRate := sampleRate)
    {
      achannel := channels;
      asampleRate := sampleRate;
    }

    /** `reset`: clears the four flags; stored parameter sets keep their length but become zeros. */
    method Reset()
      requires Valid()
      modifies this
      ensures Valid()
      ensures Avc() == AvcState(Blanked(old(h264Sps)), Blanked(old(h264Pps)), false, false, false)
      ensures Aac() == old(Aac()).(configGot := false)
    {
      h264SpsChanged := false;
      h264PpsChanged := false;
      h264SpsPpsSent := false;
      aacSpecificConfigGot := false;
      h264Sps := Blanked(h264Sps);
      h264Pps := Blanked(h264Pps);
    }

    /** `writeH264IpbFrame`: a picture is muxed as AVC NALU only once a sequence header was sent. */
    method WriteH264IpbFrame(m: Muxer, frames: seq<FrameBytes>, frameType: int, dts: int, pts: int)
      requires Valid() && m.Valid() && m.flv == this && PoolsReady(m.videoPool, m.audioPool) && AllReadable(frames)
      modifies m, m.videoPool.slots
      ensures m.Valid() && PoolsReady(m.videoPool, m.audioPool) && m.WorkerUnchanged()
      ensures m.Gate() == old(m.Gate()).OfferOpt(
        if h264SpsPpsSent then Some(FlvFrame(VideoTag(frames, frameType, AVC_NALU, dts, pts), AVC_NALU, frameType, TAG_VIDEO, dts))
        else None)
    {
      if !h264SpsPpsSent {
        return;
      }
      QueueVideoTag(m, frames, frameType, AVC_NALU, dts, pts);
    }

    /**
     * `writeH264SpsPps`: the sequence header is rebuilt only when it is due;
     * then it is queued as a key frame and the flags settle, as
     * `SpsPpsWritten` says.
     */
    method WriteH264SpsPps(m: Muxer, dts: int, pts: int) returns (fault: Option<Fault>)
      requires Valid() && m.Valid() && m.flv == this && PoolsReady(m.videoPool, m.audioPool)
      modifies this, m, m.videoPool.slots
      ensures Valid() && m.Valid() && PoolsReady(m.videoPool, m.audioPool) && m.WorkerUnchanged()
      ensures Aac() == old(Aac())
      ensures var w := SpsPpsWritten(old(Avc()), dts, pts);
        fault == w.fault && Avc() == w.state && m.Gate() == old(m.Gate()).OfferOpt(w.tag)
    {
      fault := None;
      if Avc().HeaderDue() {
        var frames := SequenceHeaderFrames(h264Sps.value, h264Pps.value);
        if frames.Threw? {
          fault := Some(frames.fault);
        } else {
          ghost var avc := Avc();
          assert SpsPpsWritten(avc, dts, pts).tag == Some(SequenceHeaderTag(avc.sps.value, avc.pps.value, dts, pts));
          QueueVideoTag(m, frames.value, KEY_FRAME, AVC_SEQUENCE_HEADER, dts, pts);
          h264SpsChanged := false;
          h264PpsChanged := false;
          h264SpsPpsSent := true;
          assert Avc() == avc.(spsChanged := false, ppsChanged := false, headerSent := true);
        }
      }
    }

    /**
     * The SPS/PPS branch of `writeVideoSample` up to the header: two more
     * start-code searches from the buffer's position, and the stores that
     * `ParameterSetsStored` describes.
     */
    method StoreParameterSets(bb: ByteBuffer, frame: FrameBytes) returns (fault: Option<Fault>, ppsStored: bool)
      requires Valid() && bb.Valid()
      requires frame.data == Some(bb.content[bb.position..]) && frame.size == |bb.content| - bb.position
      modifies this, bb`position
      ensures Valid() && bb.Valid() && Aac() == old(Aac())
      ensures Stored(fault, Avc(), ppsStored) == ParameterSetsStored(old(Avc()), bb.content, frame, old(bb.position))
    {
      var framePps := DemuxAnnexb(bb, false);
      var spsSize := frame.size - framePps.size - 4;
      if frame.data != h264Sps {
        if spsSize < 0 {
          return Some(NegativeArraySize), false;
        }
        h264Sps := Some(frame.data.value[..spsSize]);
        h264SpsChanged := true;
      }
      var frameSei := DemuxAnnexb(bb, false);
      fault, ppsStored := StorePps(framePps, frameSei);
    }

    /** The PPS half of the branch, as `PpsStored` says. */
    method StorePps(framePps: FrameBytes, frameSei: FrameBytes) returns (fault: Option<Fault>, ppsStored: bool)
      requires Valid()
      requires framePps.data.Some? ==> framePps.Readable()
      requires frameSei.data.Some? ==> frameSei.Readable()
      requires frameSei.data.None? ==> frameSei.size == 0
      modifies this
      ensures Valid() && Aac() == old(Aac())
      ensures Stored(fault, Avc(), ppsStored) == PpsStored(old(Avc()), framePps, frameSei)
    {
      fault, ppsStored := None, false;
      var ppsSize := framePps.size;
      if frameSei.size > 0 && NalUnitType(frameSei.data.value[0]) == NAL_SEI {
        ppsSize := framePps.size - frameSei.size - 3;
      }
      if framePps.data != h264Pps {
        if ppsSize < 0 {
          fault := Some(NegativeArraySize);
        } else if framePps.data.None? {
          fault := Some(NullPointer);
        } else {
          h264Pps := Some(framePps.data.value[..ppsSize]);
          h264PpsChanged := true;
          ppsStored := true;
        }
      }
    }

    /** The whole SPS/PPS branch: the stores, then `writeH264SpsPps` once a new PPS is stored. */
    method WriteParameterSets(m: Muxer, bb: ByteBuffer, frame: FrameBytes, dts: int) returns (fault: Option<Fault>)
      requires Valid() && m.Valid() && m.flv == this && PoolsReady(m.videoPool, m.audioPool)
      requires bb.Valid() && bb !in m.videoPool.Repr && bb !in m.audioPool.Repr
      requires frame.data == Some(bb.content[bb.position..]) && frame.size == |bb.content| - bb.position
      modifies this, m, m.videoPool.slots, bb`position
      ensures Valid() && m.Valid() && PoolsReady(m.videoPool, m.audioPool) && m.WorkerUnchanged() && bb.Valid()
      ensures Aac() == old(Aac())
      ensures var w := ParameterSetsWritten(old(Avc()), bb.content, frame, old(bb.position), dts);
        fault == w.fault && Avc() == w.state && m.Gate() == old(m.Gate()).OfferOpt(w.tag)
    {
      var ppsStored;
      fault, ppsStored := StoreParameterSets(bb, frame);
      if ppsStored {
        fault := WriteH264SpsPps(m, dts, dts);
      }
    }

    /**
     * `writeVideoSample`: an IDR or non-IDR slice becomes a key or inter
     * AVC NALU tag behind its 4-byte length; an SPS/PPS buffer updates the
     * parameter sets and may write the sequence header; anything else is
     * dropped. The whole is `VideoWritten`.
     */
    method WriteVideoSample(m: Muxer, bb: ByteBuffer, ptsUs: int) returns (fault: Option<Fault>)
      requires Valid() && m.Valid() && m.flv == this && PoolsReady(m.videoPool, m.audioPool)
      requires bb.Valid() && bb !in m.videoPool.Repr && bb !in m.audioPool.Repr
      modifies this, m, m.videoPool.slots, bb`position
      ensures Valid() && m.Valid() && PoolsReady(m.videoPool, m.audioPool) && m.WorkerUnchanged() && bb.Valid()
      ensures Aac() == old(Aac())
      ensures var w := VideoWritten(old(Avc()), bb.content, old(bb.position), ptsUs);
        fault == w.fault && Avc() == w.state && m.Gate() == old(m.Gate()).OfferOpt(w.tag)
    {
      ghost var v := ClassifyVideo(bb.content, bb.position);
      fault := None;
      if |bb.content| >= 4 {
        var pts := Dts(ptsUs);
        var dts := pts;
        var frame := DemuxAnnexb(bb, true);
        if frame.data.None? {
          assert v == NoStartCode;
          fault := Some(NullPointer);
        } else {
          var nal := NalUnitType(frame.data.value[0]);
          if nal == NAL_SPS || nal == NAL_PPS {
            assert v == ParameterSetsAt(frame, bb.position);
            fault := WriteParameterSets(m, bb, frame, dts);
          } else if nal == NAL_IDR || nal == NAL_NON_IDR {
            var frameType := if nal == NAL_IDR then KEY_FRAME else INTER_FRAME;
            assert v == Picture(frame, frameType);
            assert VideoWritten(Avc(), bb.content, old(bb.position), ptsUs).tag ==
              if h264SpsPpsSent then Some(PictureTag(frame, frameType, dts)) else None;
            WriteH264IpbFrame(m, [MuxNaluHeader(frame), frame], frameType, dts, pts);
          }
        }
      }
    }

    /**
     * `writeAudioSample`: the first sample after a reset becomes the AAC
     * sequence header (packet type 0), every later one an AAC raw tag
     * (packet type 1); both go through the gate. The whole is `AudioWritten`.
     */
    method WriteAudioSample(m: Muxer, bb: ByteBuffer, ptsUs: int) returns (fault: Option<Fault>)
      requires Valid() && m.Valid() && m.flv == this && PoolsReady(m.videoPool, m.audioPool)
      requires bb.Valid() && bb !in m.videoPool.Repr && bb !in m.audioPool.Repr
      modifies this, m, m.audioPool.slots, bb`position
      ensures Valid() && m.Valid() && PoolsReady(m.videoPool, m.audioPool) && m.WorkerUnchanged() && bb.Valid()
      ensures Avc() == old(Avc())
      ensures var w := AudioWritten(old(Aac()), bb.content, old(bb.position), ptsUs);
        fault == w.fault && Aac() == w.state && m.Gate() == old(m.Gate()).OfferOpt(w.tag)
    {
      var dts := Dts(ptsUs);
      var configured := aacSpecificConfigGot;
      var tag;
      fault, tag := MuxAudioTag(m.videoPool, m.audioPool, bb, configured, asampleRate, achannel);
      if fault.Some? {
        return;
      }
      aacSpecificConfigGot := true;
      m.WriteRtmpPacket(TAG_AUDIO, dts, 0, if configured then 1 else 0, tag);
    }
  }

  /** `Arrays.fill(.., 0)` on a stored parameter set: same length, every byte zero. */
  function Blanked(p: Option<seq<byte>>): (r: Option<seq<byte>>)
    ensures r.Some? <==> p.Some?
    ensures r.Some? ==> |r.value| == |p.value| && forall i :: 0 <= i < |r.value| ==> r.value[i] == 0
  {
    if p.Some? then Some(seq(|p.value|, _ => 0)) else None
  }
}
