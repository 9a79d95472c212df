/**
 * The byte-level half of the FLV muxer: the raw H.264 stream helper
 * (`SrsRawH264Stream`: Annex-B start-code search and demux, NALU length
 * prefix, AVC sequence header, video-tag framing into a pooled allocation)
 * and the bytes of the AAC audio tags (`SrsFlv.writeAudioSample` and
 * `writeAdtsHeader`).
 */
module FlvCodec {
  import opened Base
  import opened SrsAllocator

  // SrsCodecFlvTag
  const TAG_AUDIO: int := 8
  const TAG_VIDEO: int := 9
  // SrsCodecVideo
  const CODEC_AVC: int := 7
  // SrsCodecVideoAVCFrame
  const KEY_FRAME: int := 1
  const INTER_FRAME: int := 2
  // SrsCodecVideoAVCType
  const AVC_SEQUENCE_HEADER: int := 0
  const AVC_NALU: int := 1
  // SrsAvcNaluType (Table 7-1 of ITU-T H.264)
  const NAL_NON_IDR: int := 1
  const NAL_IDR: int := 5
  const NAL_SEI: int := 6
  const NAL_SPS: int := 7
  const NAL_PPS: int := 8
  // SrsAacObjectType
  const AAC_LC: int := 2
  // pool sizes of the muxer
  const VIDEO_ALLOC_SIZE: nat := 128 * 1024
  const AUDIO_ALLOC_SIZE: nat := 4 * 1024

  /** `nal_unit_type`: the low five bits of a NAL unit's first byte. */
  function NalUnitType(b: byte): (t: int)
    ensures 0 <= t < 32
  {
    b % 32
  }

  /**
   * `SrsFlvFrameBytes`: a view of a byte buffer (its remaining bytes, or
   * null) and the number of those bytes that belong to the frame.
   */
  datatype FrameBytes = FrameBytes(data: Option<seq<byte>>, size: int)
  {
    /** The frame's bytes can be read: a buffer is there and holds `size` bytes. */
    predicate Readable()
    {
      data.Some? && 0 <= size <= |data.value|
    }

    function Bytes(): seq<byte>
      requires Readable()
    {
      data.value[..size]
    }
  }

  predicate AllReadable(frames: seq<FrameBytes>)
  {
    forall i :: 0 <= i < |frames| ==> frames[i].Readable()
  }

  // ---------------------------------------------------------------------
  // Annex-B start codes
  // ---------------------------------------------------------------------

  /** `00 00 01`, or `00 00 00 01`, starts at index i. */
  predicate StartCodeAt(s: seq<byte>, i: int)
    requires 0 <= i && i + 4 <= |s|
  {
    s[i] == 0 && s[i + 1] == 0 && (s[i + 2] == 1 || (s[i + 2] == 0 && s[i + 3] == 1))
  }

  /** The index just past the start code at i. */
  function StartCodeEnd(s: seq<byte>, i: int): (e: int)
    requires 0 <= i && i + 4 <= |s| && StartCodeAt(s, i)
    ensures i + 3 <= e <= i + 4
  {
    if s[i + 2] == 1 then i + 3 else i + 4
  }

  /** The first index in `from .. |s|-5` where a start code begins. */
  function FirstStartCode(s: seq<byte>, from: int): (r: Option<int>)
    requires 0 <= from
    ensures r.Some? ==>
      from <= r.value < |s| - 4 && StartCodeAt(s, r.value) &&
      forall j :: from <= j < r.value ==> !StartCodeAt(s, j)
    ensures r.None? ==> forall j :: from <= j < |s| - 4 ==> !StartCodeAt(s, j)
    decreases |s| - from
  {
    if from >= |s| - 4 then None
    else if StartCodeAt(s, from) then Some(from)
    else FirstStartCode(s, from + 1)
  }

  /** `SrsAnnexbSearch`: whether a start code was found and how many bytes to skip. */
  datatype AnnexbSearch = AnnexbSearch(matched: bool, nbStartCode: int)

  /** What `searchAnnexb` finds from position `pos`. */
  function FullSearch(s: seq<byte>, pos: int): (r: AnnexbSearch)
    requires 0 <= pos <= |s|
    ensures r.matched <==> FirstStartCode(s, pos).Some?
    ensures r.matched ==>
      r.nbStartCode == StartCodeEnd(s, FirstStartCode(s, pos).value) - pos &&
      3 <= r.nbStartCode && pos + r.nbStartCode < |s|
    ensures !r.matched ==> r.nbStartCode == 0
  {
    match FirstStartCode(s, pos)
    case None => AnnexbSearch(false, 0)
    case Some(i) => AnnexbSearch(true, StartCodeEnd(s, i) - pos)
  }

  /**
   * `searchAnnexb`: scans i from the position while i < size - 4 for the
   * first start code; the count runs from the position to its end.
   */
  method SearchAnnexb(bb: ByteBuffer) returns (r: AnnexbSearch)
    requires bb.Valid()
    ensures r == FullSearch(bb.content, bb.position)
  {
    var s := bb.content;
    var pos := bb.position;
    var i := pos;
    while i < |s| - 4
      invariant pos <= i
      invariant FirstStartCode(s, pos) == FirstStartCode(s, i)
      decreases |s| - i
    {
      if s[i] != 0 || s[i + 1] != 0 {
        i := i + 1;
        continue;
      }
      if s[i + 2] == 1 {
        return AnnexbSearch(true, i + 3 - pos);
      }
      if s[i + 2] == 0 && s[i + 3] == 1 {
        return AnnexbSearch(true, i + 4 - pos);
      }
      i := i + 1;
    }
    return AnnexbSearch(false, 0);
  }

  /**
   * `searchStartcode`: looks only at absolute bytes 0..3, whatever the
   * position, and only when the buffer holds more than four bytes.
   */
  function SearchStartcode(s: seq<byte>): (r: AnnexbSearch)
    ensures r.matched <==> |s| > 4 && StartCodeAt(s, 0)
    ensures r.matched ==> r.nbStartCode == StartCodeEnd(s, 0)
    ensures !r.matched ==> r.nbStartCode == 0
  {
    if |s| - 4 > 0 then
      if s[0] == 0 && s[1] == 0 && s[2] == 0 && s[3] == 1 then AnnexbSearch(true, 4)
      else if s[0] == 0 && s[1] == 0 && s[2] == 1 then AnnexbSearch(true, 3)
      else AnnexbSearch(false, 0)
    else AnnexbSearch(false, 0)
  }

  /** Buffers that agree on their first four bytes get the same header answer. */
  lemma SearchStartcodeReadsHead(s: seq<byte>, t: seq<byte>)
    requires |s| > 4 && |t| > 4 && s[..4] == t[..4]
    ensures SearchStartcode(s) == SearchStartcode(t)
  {
    assert forall k :: 0 <= k < 4 ==> s[k] == s[..4][k] && t[k] == t[..4][k];
  }

  /** At position 0 a header match is the match the full scan finds. */
  lemma SearchStartcodeIsFirstMatch(s: seq<byte>)
    requires SearchStartcode(s).matched
    ensures SearchStartcode(s) == FullSearch(s, 0)
  {
    assert FirstStartCode(s, 0) == Some(0);
  }

  /**
   * `demuxAnnexb`, as a value: the frame found from `pos` and the new
   * position. With a start code, the frame is the rest of the buffer after
   * it; otherwise an empty frame and the position unchanged.
   */
  function Demux(s: seq<byte>, pos: int, onlyHeader: bool): (r: (FrameBytes, int))
    requires 0 <= pos <= |s|
    ensures r.0.data.Some? ==>
      pos + 3 <= r.1 < |s| && r.0.data.value == s[r.1..] && r.0.size == |s| - r.1 && r.0.Readable()
    ensures r.0.data.None? ==> r.0.size == 0 && r.1 == pos
    ensures onlyHeader ==> (r.0.data.Some? <==> pos < |s| - 4 && StartCodeAt(s, 0))
    ensures onlyHeader && r.0.data.Some? ==> r.1 == pos + StartCodeEnd(s, 0)
    ensures !onlyHeader ==> (r.0.data.Some? <==> FirstStartCode(s, pos).Some?)
    ensures !onlyHeader && r.0.data.Some? ==> r.1 == StartCodeEnd(s, FirstStartCode(s, pos).value)
  {
    var sc :=
      if pos < |s| - 4 then (if onlyHeader then SearchStartcode(s) else FullSearch(s, pos))
      else AnnexbSearch(false, 0);
    if !sc.matched || sc.nbStartCode < 3 then (FrameBytes(None, 0), pos)
    else
      var next := pos + sc.nbStartCode;
      (FrameBytes(Some(s[next..]), |s| - next), next)
  }

  /**
   * `demuxAnnexb`: skips the start code one `get()` at a time and returns
   * the slice after it.
   */
  method DemuxAnnexb(bb: ByteBuffer, onlyHeader: bool) returns (f: FrameBytes)
    requires bb.Valid()
    modifies bb`position
    ensures bb.Valid()
    ensures (f, bb.position) == Demux(bb.content, old(bb.position), onlyHeader)
  {
    f := FrameBytes(None, 0);
    if bb.position < |bb.content| - 4 {
      var sc: AnnexbSearch;
      if onlyHeader {
        sc := SearchStartcode(bb.content);
      } else {
        sc := SearchAnnexb(bb);
      }
      if sc.matched && sc.nbStartCode >= 3 {
        assert Demux(bb.content, bb.position, onlyHeader).1 == bb.position + sc.nbStartCode;
        var k := 0;
        while k < sc.nbStartCode
          invariant 0 <= k <= sc.nbStartCode && bb.Valid()
          invariant bb.position == old(bb.position) + k
        {
          var skipped := bb.Get();
          k := k + 1;
        }
        f := FrameBytes(Some(bb.Remaining()), |bb.content| - bb.position);
      }
    }
  }

  // ---------------------------------------------------------------------
  // NALU length prefix and the AVC sequence header
  // ---------------------------------------------------------------------

  /** `muxNaluHeader`: a 4-byte big-endian NALUnitLength (`putInt`). */
  function MuxNaluHeader(frame: FrameBytes): (h: FrameBytes)
    ensures h.Readable() && h.size == 4
    ensures FromBigEndian(h.Bytes()) == frame.size % TWO_32
  {
    BigEndianRoundTrip(frame.size, 4);
    Pow256Values();
    var h := FrameBytes(Some(BigEndian(frame.size, 4)), 4);
    assert h.Bytes() == BigEndian(frame.size, 4);
    h
  }

  /**
   * `muxSequenceHeader`: the frames of an AVCDecoderConfigurationRecord
   * (ISO/IEC 14496-15): the 5-byte head, then one SPS and one PPS, each
   * behind a count byte and a 16-bit length (`putShort(size.toShort())`).
   * Reading `sps[1]` and `sps[3]` fails on an SPS shorter than four bytes.
   */
  function SequenceHeaderFrames(sps: seq<byte>, pps: seq<byte>): (r: Outcome<seq<FrameBytes>>)
    ensures r.Ok? <==> |sps| >= 4
    ensures r.Ok? ==> AllReadable(r.value) && |r.value| == 5
    ensures r.Threw? ==> r.fault == IndexOutOfBounds
  {
    if |sps| < 4 then Threw(IndexOutOfBounds)
    else
      Ok([FrameBytes(Some([1, sps[1], 0, sps[3], 3]), 5),
          FrameBytes(Some([1] + BigEndian(|sps|, 2)), 3),
          FrameBytes(Some(sps), |sps|),
          FrameBytes(Some([1] + BigEndian(|pps|, 2)), 3),
          FrameBytes(Some(pps), |pps|)])
  }

  /** The fields of an AVCDecoderConfigurationRecord with one SPS and one PPS. */
  datatype AvcConfig = AvcConfig(
    profile: byte, compatibility: byte, level: byte, nalLengthSize: int,
    sps: seq<byte>, pps: seq<byte>)

  /**
   * Reads an AVCDecoderConfigurationRecord holding exactly one SPS and one
   * PPS (section 5.3.3.1 of ISO/IEC 14496-15); the reserved bits are masked.
   */
  function ParseAvcConfig(b: seq<byte>): Option<AvcConfig>
  {
    if |b| < 8 || b[0] != 1 || b[5] % 32 != 1 then None
    else
      var spsLen := FromBigEndian(b[6..8]);
      if |b| < 8 + spsLen then None
      else
        match ParsePpsList(b[8 + spsLen..])
        case None => None
        case Some(pps) => Some(AvcConfig(b[1], b[2], b[3], b[4] % 4 + 1, b[8..8 + spsLen], pps))
  }

  /** The PPS part of the record: a count of one, a 16-bit length and that many bytes. */
  function ParsePpsList(rest: seq<byte>): Option<seq<byte>>
  {
    if |rest| < 3 || rest[0] != 1 || |rest| != 3 + FromBigEndian(rest[1..3]) then None
    else Some(rest[3..])
  }

  lemma AllReadableOne(frames: seq<FrameBytes>, i: int)
    requires AllReadable(frames) && 0 <= i < |frames|
    ensures frames[i].Readable()
  {
  }

  /** The bytes of the sequence-header frames, in order. */
  lemma SequenceHeaderBytes(sps: seq<byte>, pps: seq<byte>)
    requires |sps| >= 4
    ensures SequenceHeaderFrames(sps, pps).Ok?
    ensures FramesBytes(SequenceHeaderFrames(sps, pps).value) ==
      [1, sps[1], 0, sps[3], 3] + ([1] + BigEndian(|sps|, 2)) + sps + ([1] + BigEndian(|pps|, 2)) + pps
  {
    var frames := SequenceHeaderFrames(sps, pps).value;
    FramesBytesUnfold5(frames);
    assert frames[0].Bytes() == [1, sps[1], 0, sps[3], 3];
    assert frames[1].Bytes() == [1] + BigEndian(|sps|, 2);
    assert frames[2].Bytes() == sps;
    assert frames[3].Bytes() == [1] + BigEndian(|pps|, 2);
    assert frames[4].Bytes() == pps;
  }

  /** The reader takes a record with one SPS and one PPS apart again. */
  lemma ParseAvcConfigOf(head: seq<byte>, sps: seq<byte>, pps: seq<byte>)
    requires |head| == 5 && head[0] == 1 && head[4] == 3
    requires |sps| < TWO_16 && |pps| < TWO_16
    ensures ParseAvcConfig(head + ([1] + BigEndian(|sps|, 2)) + sps + ([1] + BigEndian(|pps|, 2)) + pps) ==
      Some(AvcConfig(head[1], head[2], head[3], 4, sps, pps))
  {
    Pow256Values();
    BigEndianExact(|sps|, 2);
    BigEndianExact(|pps|, 2);
    ParseAvcConfigParts(head, BigEndian(|sps|, 2), sps, BigEndian(|pps|, 2), pps);
  }

  /** `ParseAvcConfigOf` with the two length fields given by what they read as. */
  lemma ParseAvcConfigParts(head: seq<byte>, ls: seq<byte>, sps: seq<byte>, lp: seq<byte>, pps: seq<byte>)
    requires |head| == 5 && head[0] == 1 && head[4] == 3
    requires |ls| == 2 && FromBigEndian(ls) == |sps| && |lp| == 2 && FromBigEndian(lp) == |pps|
    ensures ParseAvcConfig(head + ([1] + ls) + sps + ([1] + lp) + pps) ==
      Some(AvcConfig(head[1], head[2], head[3], 4, sps, pps))
  {
    var n := |sps|;
    var tail := [1] + lp + pps;
    var front := head + [1] + ls;
    var b := head + ([1] + ls) + sps + ([1] + lp) + pps;
    assert b == front + (sps + tail);
    assert b[0] == 1 && b[1..5] == head[1..5] && b[5] == 1;
    assert b[6..8] == ls;
    assert b[8..8 + n] == sps;
    assert b[8 + n..] == tail;
    ParsePpsListParts(lp, pps);
    assert ParsePpsList(b[8 + n..]) == Some(pps);
  }

  lemma ParsePpsListParts(lp: seq<byte>, pps: seq<byte>)
    requires |lp| == 2 && FromBigEndian(lp) == |pps|
    ensures ParsePpsList([1] + lp + pps) == Some(pps)
  {
    var tail := [1] + lp + pps;
    assert tail[1..3] == lp;
    assert tail[3..] == pps;
  }

  /**
   * The record round-trips: its reader recovers the profile and level
   * bytes of the SPS, 4-byte NALU lengths, and the SPS and PPS themselves,
   * as long as both fit the 16-bit length fields.
   */
  lemma SequenceHeaderParses(sps: seq<byte>, pps: seq<byte>)
    requires 4 <= |sps| < TWO_16 && |pps| < TWO_16
    ensures SequenceHeaderFrames(sps, pps).Ok?
    ensures ParseAvcConfig(FramesBytes(SequenceHeaderFrames(sps, pps).value)) ==
      Some(AvcConfig(sps[1], 0, sps[3], 4, sps, pps))
  {
    SequenceHeaderBytes(sps, pps);
    ParseAvcConfigOf([1, sps[1], 0, sps[3], 3], sps, pps);
  }

  /** The bytes of the frames, in list order. */
  function FramesBytes(frames: seq<FrameBytes>): (b: seq<byte>)
    requires AllReadable(frames)
    ensures |b| == SizeSum(frames)
  {
    if frames == [] then []
    else FramesBytes(frames[..|frames| - 1]) + frames[|frames| - 1].Bytes()
  }

  function SizeSum(frames: seq<FrameBytes>): int
  {
    if frames == [] then 0 else SizeSum(frames[..|frames| - 1]) + frames[|frames| - 1].size
  }

  /** One more frame appends its bytes. */
  lemma FramesBytesStep(frames: seq<FrameBytes>, k: int)
    requires AllReadable(frames) && 0 <= k < |frames|
    ensures frames[k].Readable()
    ensures FramesBytes(frames[..k + 1]) == FramesBytes(frames[..k]) + frames[k].Bytes()
    ensures SizeSum(frames[..k + 1]) == SizeSum(frames[..k]) + frames[k].size
  {
    var p := frames[..k + 1];
    assert p[..|p| - 1] == frames[..k];
    assert p[|p| - 1] == frames[k];
  }

  lemma FramesBytesUnfold5(frames: seq<FrameBytes>)
    requires AllReadable(frames) && |frames| == 5
    ensures FramesBytes(frames) ==
      frames[0].Bytes() + frames[1].Bytes() + frames[2].Bytes() + frames[3].Bytes() + frames[4].Bytes()
  {
    assert frames[..0] == [];
    FramesBytesStep(frames, 0);
    FramesBytesStep(frames, 1);
    FramesBytesStep(frames, 2);
    FramesBytesStep(frames, 3);
    FramesBytesStep(frames, 4);
    assert frames[..5] == frames;
  }

  // ---------------------------------------------------------------------
  // FLV video tags
  // ---------------------------------------------------------------------

  /**
   * The 5-byte AVC video tag header (E.4.3 of the FLV specification
   * v10.1): `(frame_type shl 4) or 7`, the AVCPacketType, and the 24-bit
   * composition time `pts - dts`, each truncated with `toByte()`.
   */
  function VideoTagHeader(frameType: int, packetType: int, cts: int): (h: seq<byte>)
    ensures |h| == 5
  {
    [ToByte(frameType * 16 + CODEC_AVC), ToByte(packetType)] + BigEndian(cts, 3)
  }

  /** What `muxFlvTag` writes: the header, then every frame's bytes in list order. */
  function VideoTag(frames: seq<FrameBytes>, frameType: int, packetType: int, dts: int, pts: int): (t: seq<byte>)
    requires AllReadable(frames)
    ensures |t| == 5 + SizeSum(frames)
  {
    VideoTagHeader(frameType, packetType, pts - dts) + FramesBytes(frames)
  }

  /** Reading the fields of a video tag back gives what was muxed. */
  lemma VideoTagFields(frames: seq<FrameBytes>, frameType: int, packetType: int, dts: int, pts: int)
    requires AllReadable(frames) && 0 <= frameType < 16
    ensures var t := VideoTag(frames, frameType, packetType, dts, pts);
      t[5..] == FramesBytes(frames) &&
      FromBigEndian(t[2..5]) == (pts - dts) % TWO_24 &&
      t[1] == packetType % 256 &&
      t[0] / 16 == frameType && t[0] % 16 == CODEC_AVC
  {
    var t := VideoTag(frames, frameType, packetType, dts, pts);
    assert t[..5] == VideoTagHeader(frameType, packetType, pts - dts);
    HeaderComposition(t, frameType, packetType, pts - dts);
  }

  lemma HeaderComposition(t: seq<byte>, frameType: int, packetType: int, cts: int)
    requires |t| >= 5 && t[..5] == VideoTagHeader(frameType, packetType, cts)
    ensures FromBigEndian(t[2..5]) == cts % TWO_24
  {
    assert t[2..5] == BigEndian(cts, 3);
    BigEndianRoundTrip(cts, 3);
    Pow256Values();
  }

  /**
   * A coded picture's tag body is its 4-byte length prefix followed by the
   * NAL unit, and the prefix reads back as the number of bytes after it.
   */
  lemma NaluTagBody(f: FrameBytes, frameType: int, dts: int, pts: int)
    requires f.Readable() && f.size < TWO_32
    ensures AllReadable([MuxNaluHeader(f), f])
    ensures var body := VideoTag([MuxNaluHeader(f), f], frameType, AVC_NALU, dts, pts)[5..];
      body == BigEndian(f.size, 4) + f.Bytes() &&
      FromBigEndian(body[..4]) == |body| - 4
  {
    var frames := [MuxNaluHeader(f), f];
    assert frames[..1][..0] == [];
    assert FramesBytes(frames) == BigEndian(f.size, 4) + f.Bytes();
    var body := VideoTag(frames, frameType, AVC_NALU, dts, pts)[5..];
    assert body[..4] == BigEndian(f.size, 4);
    BigEndianExact(f.size, 4);
  }

  /** The `size` loop of `muxFlvTag`: five header bytes plus every frame's size. */
  method TagSize(frames: seq<FrameBytes>) returns (size: int)
    requires AllReadable(frames)
    ensures size == 5 + SizeSum(frames) && size >= 5
  {
    size := 5;
    var i := 0;
    while i < |frames|
      invariant 0 <= i <= |frames|
      invariant size == 5 + SizeSum(frames[..i])
    {
      FramesBytesStep(frames, i);
      size := size + frames[i].size;
      i := i + 1;
    }
    assert frames[..|frames|] == frames;
    assert |FramesBytes(frames)| == SizeSum(frames);
  }

  /** The five header puts of `muxFlvTag`. */
  method PutVideoTagHeader(a: Allocation, frameType: int, packetType: int, cts: int)
    requires a.Valid() && a.size + 5 <= a.data.Length
    modifies a, a.data
    ensures a.Valid() && a.data == old(a.data) && a.size == old(a.size) + 5
    ensures a.Contents() == old(a.Contents()) + VideoTagHeader(frameType, packetType, cts)
  {
    a.Put(ToByte(frameType * 16 + CODEC_AVC));
    a.Put(ToByte(packetType));
    a.Put(ToByte(cts / 256 / 256));  // cts shr 16
    a.Put(ToByte(cts / 256));        // cts shr 8
    a.Put(ToByte(cts));
  }

  /** The copy loop of `muxFlvTag`: each frame's bytes at `size`, then `appendOffset`. */
  method PutFrames(a: Allocation, frames: seq<FrameBytes>)
    requires AllReadable(frames)
    requires a.Valid() && a.size + SizeSum(frames) <= a.data.Length
    modifies a, a.data
    ensures a.Valid() && a.data == old(a.data) && a.size == old(a.size) + SizeSum(frames)
    ensures a.Contents() == old(a.Contents()) + FramesBytes(frames)
  {
    var i := 0;
    while i < |frames|
      invariant 0 <= i <= |frames|
      invariant a.Valid() && a.data == old(a.data)
      invariant a.size == old(a.size) + SizeSum(frames[..i])
      invariant a.Contents() == old(a.Contents()) + FramesBytes(frames[..i])
    {
      FramesBytesStep(frames, i);
      SizeSumPrefix(frames, i + 1);
      var bytes := frames[i].Bytes();
      ghost var before := a.data[..];
      CopyInto(bytes, a.data, a.size);
      assert a.data[..a.size + |bytes|] == before[..a.size] + bytes;
      a.AppendOffset(frames[i].size);
      i := i + 1;
    }
    assert frames[..|frames|] == frames;
  }

  /** `allocate(size)` on a pool whose allocations are all empty: always a new allocation. */
  method AllocateNew(pool: Pool, size: int) returns (a: Allocation)
    requires pool.Valid() && pool.NoHoles() && pool.PooledEmpty() && size >= 1
    modifies pool.slots
    ensures pool.Valid() && pool.NoHoles() && pool.PooledEmpty()
    ensures pool.Repr == old(pool.Repr) && pool.slots[..] == old(pool.slots[..])
    ensures fresh(a) && fresh(a.data) && a.Valid() && a.size == 0
    ensures a.data.Length == Max(size, pool.individualAllocationSize)
  {
    var r := pool.Allocate(size);
    assert r.Created?;
    a := r.a;
  }

  /**
   * `muxFlvTag`: takes an allocation of `5 + sum of sizes` bytes from the
   * pool and writes the video tag into it. The pool never has an allocation
   * to hand back for a request of at least one byte, so it is a new one.
   */
  method MuxFlvTag(pool: Pool, frames: seq<FrameBytes>, frameType: int, packetType: int, dts: int, pts: int)
    returns (a: Allocation)
    requires pool.Valid() && pool.NoHoles() && pool.PooledEmpty()
    requires AllReadable(frames)
    modifies pool.slots
    ensures pool.Valid() && pool.NoHoles() && pool.PooledEmpty()
    ensures pool.Repr == old(pool.Repr) && pool.slots[..] == old(pool.slots[..])
    ensures fresh(a) && fresh(a.data) && a.Valid()
    ensures a.data.Length == Max(5 + SizeSum(frames), pool.individualAllocationSize)
    ensures a.Contents() == VideoTag(frames, frameType, packetType, dts, pts)
  {
    var size := TagSize(frames);
    a := AllocateNew(pool, size);
    PutVideoTagHeader(a, frameType, packetType, pts - dts);
    PutFrames(a, frames);
  }

  lemma SizeSumPrefix(frames: seq<FrameBytes>, k: int)
    requires AllReadable(frames) && 0 <= k <= |frames|
    ensures SizeSum(frames[..k]) <= SizeSum(frames)
    decreases |frames|
  {
    if k < |frames| {
      var init := frames[..|frames| - 1];
      assert frames[..k] == init[..k];
      SizeSumPrefix(init, k);
    } else {
      assert frames[..k] == frames;
    }
  }

  // ---------------------------------------------------------------------
  // AAC audio tags
  // ---------------------------------------------------------------------

  /** The FLV SoundRate code: 22050, 11025 and 5512 Hz have their own, anything else is 3. */
  function SoundRate(rate: int): (code: int)
    ensures 0 <= code <= 3
  {
    if rate == 22050 then 2
    else if rate == 11025 then 1
    else if rate == 5512 then 0
    else 3
  }

  /** The nominal rate of each FLV SoundRate code (5.5, 11, 22 and 44 kHz). */
  const FLV_SOUND_RATES: seq<int> := [5512, 11025, 22050, 44100]

  /** The code names the actual rate exactly for the four FLV rates. */
  lemma SoundRateExact(rate: int)
    ensures FLV_SOUND_RATES[SoundRate(rate)] == rate <==> rate in {5512, 11025, 22050, 44100}
  {
  }

  /**
   * The samplingFrequencyIndex written into the AudioSpecificConfig:
   * 22050, 11025, 32000 and 16000 Hz have their own, every other rate gets 4.
   */
  function SamplingFrequencyIndex(rate: int): (index: int)
    ensures 0 <= index < 13
  {
    if rate == 22050 then 7
    else if rate == 11025 then 0x0a
    else if rate == 32000 then 5
    else if rate == 16000 then 8
    else 4
  }

  /** The rate each samplingFrequencyIndex stands for (ISO/IEC 14496-3, Table 1.18). */
  const AAC_SAMPLING_RATES: seq<int> :=
    [96000, 88200, 64000, 48000, 44100, 32000, 24000, 22050, 16000, 12000, 11025, 8000, 7350]

  /**
   * The index names the actual rate for exactly five rates: the four the
   * code lists and 44100 Hz, which the default happens to match. A 48000 Hz
   * or 8000 Hz stream is labelled 44100 Hz.
   */
  lemma SamplingIndexExact(rate: int)
    ensures AAC_SAMPLING_RATES[SamplingFrequencyIndex(rate)] == rate <==>
      rate in {44100, 32000, 22050, 16000, 11025}
  {
  }

  /** channelConfiguration: 2 for a stereo track, 1 for anything else. */
  function ChannelConfiguration(channels: int): (cc: int)
    ensures cc == 1 || cc == 2
  {
    if channels == 2 then 2 else 1
  }

  /**
   * The two AudioSpecificConfig bytes: the top five bits of the first AAC
   * byte as audioObjectType (`and 0xf8`), then the 4-bit sampling index
   * split over the two bytes (`shr 1 and 0x07`, `shl 7 and 0x80`) and the
   * 4-bit channel configuration (`shl 3 and 0x78`); the last three bits
   * stay 0. The masked fields do not overlap, so each `or` is a sum.
   */
  function AudioSpecificConfig(first: byte, rate: int, channels: int): (asc: seq<byte>)
    ensures |asc| == 2
  {
    var sfi := SamplingFrequencyIndex(rate);
    [(first / 8) * 8 + (sfi / 2) % 8,
     (sfi % 2) * 128 + (ChannelConfiguration(channels) % 16) * 8]
  }

  /** Unpacking the AudioSpecificConfig bit fields gives back what was packed. */
  lemma AudioSpecificConfigFields(first: byte, rate: int, channels: int)
    ensures var asc := AudioSpecificConfig(first, rate, channels);
      asc[0] / 8 == first / 8 &&
      (asc[0] % 8) * 2 + asc[1] / 128 == SamplingFrequencyIndex(rate) &&
      (asc[1] / 8) % 16 == ChannelConfiguration(channels) &&
      asc[1] % 8 == 0
  {
  }

  /** The audio tag's first byte: SoundFormat 10 (AAC), SoundRate, 16-bit samples, stereo or mono. */
  function AudioTagHeader(rate: int, channels: int): (h: byte)
  {
    var soundType := if channels == 2 then 1 else 0;
    (soundType % 2) + (1 * 2) % 4 + (SoundRate(rate) * 4) % 16 + (10 * 16) % 256
  }

  /** The header's four fields read back as written. */
  lemma AudioTagHeaderFields(rate: int, channels: int)
    ensures var h := AudioTagHeader(rate, channels);
      h / 16 == 10 && (h / 4) % 4 == SoundRate(rate) && (h / 2) % 2 == 1 &&
      (h % 2 == 1 <==> channels == 2)
  {
    var c := SoundRate(rate);
    var t := if channels == 2 then 1 else 0;
    var h := AudioTagHeader(rate, channels);
    assert h == 162 + 4 * c + t;
    if c == 0 {
      assert h == 162 + t;
    } else if c == 1 {
      assert h == 166 + t;
    } else if c == 2 {
      assert h == 170 + t;
    } else {
      assert h == 174 + t;
    }
  }

  /**
   * The 7-byte ADTS header `writeAdtsHeader` puts after the
   * AudioSpecificConfig: fixed profile LC, sampling index 4, channel
   * configuration 2, and the 13-bit frame length `arrayLength - 2`, where
   * arrayLength is the whole backing array of the allocation
   * (`and 0x1800 shr 11`, `and 0x7f8 shr 3`, `and 0x7 shl 5`).
   */
  function AdtsHeader(arrayLength: int): (h: seq<byte>)
    requires arrayLength >= 2
    ensures |h| == 7
  {
    var m := arrayLength - 2;
    [0xff, 0xf1, 0x50,
     0x80 + (m % 0x2000) / 0x800,
     (m % 0x800) / 8,
     (m % 8) * 32 + 0x1f,
     0xfc]
  }

  /**
   * Reading the ADTS fields back (ISO/IEC 14496-3, 1.A.2.2): the sync word,
   * no CRC, profile AAC LC, index 4 and two channels, whatever the stream,
   * and the 13-bit frame length, `arrayLength - 2` modulo 2^13.
   */
  lemma AdtsHeaderFields(arrayLength: int)
    requires arrayLength >= 2
    ensures var h := AdtsHeader(arrayLength);
      h[0] == 0xff && h[1] / 16 == 0xf && h[1] % 2 == 1 &&
      h[2] / 64 == AAC_LC - 1 &&
      (h[2] / 4) % 16 == 4 &&
      (h[2] % 2) * 4 + h[3] / 64 == 2 &&
      (h[3] as int % 4) * 0x800 + h[4] as int * 8 + h[5] / 32 == (arrayLength - 2) % 0x2000
  {
    var m := arrayLength - 2;
    var h := AdtsHeader(arrayLength);
    assert h[3] as int % 4 == (m % 0x2000) / 0x800 && h[4] == (m % 0x800) / 8 && h[5] / 32 == m % 8;
    ThirteenBits(m);
  }

  /** The three pieces of a 13-bit field, as `writeAdtsHeader` masks them, add back up. */
  lemma ThirteenBits(m: int)
    ensures ((m % 0x2000) / 0x800) * 0x800 + ((m % 0x800) / 8) * 8 + m % 8 == m % 0x2000
  {
    var a := m % 0x2000;
    var q := m / 0x2000;
    assert m == q * 0x2000 + a;
    ModUnique(m, 0x800, q * 4 + a / 0x800, a % 0x800);
    var b := a % 0x800;
    ModUnique(m, 8, (q * 4 + a / 0x800) * 0x100 + b / 8, b % 8);
  }

  /**
   * The audio tag `writeAudioSample` builds. The first sample after a reset
   * (`configured` false) becomes the AAC sequence header: packet type 0,
   * the AudioSpecificConfig from the sample's first byte and the ADTS
   * header; its AAC payload is not copied. Later samples are packet type 1
   * followed by the sample bytes.
   */
  function AudioTag(sample: seq<byte>, configured: bool, rate: int, channels: int, arrayLength: int): (t: seq<byte>)
    requires configured || (|sample| >= 1 && arrayLength >= 2)
    ensures configured ==> |t| == 2 + |sample| && t[1] == 1 && t[2..] == sample
    ensures !configured ==> |t| == 11 && t[1] == 0
    ensures t[0] == AudioTagHeader(rate, channels)
  {
    if configured then [AudioTagHeader(rate, channels), 1] + sample
    else [AudioTagHeader(rate, channels), 0] + AudioSpecificConfig(sample[0], rate, channels) + AdtsHeader(arrayLength)
  }
}
