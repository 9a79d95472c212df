/**
 * The parameter-set handling of the camera plugin's `VideoEncoder`: the
 * SPS/PPS split of an H.264 codec-config buffer, the VPS/SPS/PPS split of
 * an H.265 `csd-0` buffer, the flag that forwards them once per start,
 * and the on-the-fly bitrate change.
 */
module VideoEncoder {
  import opened Base

  // ---------------------------------------------------------------------
  // H.264: two four-byte start codes
  // ---------------------------------------------------------------------

  /** `00 00 00 01` begins at `i`, at an index the scan reaches (below `length - 4`). */
  predicate Code4At(csd: seq<byte>, i: int)
  {
    0 <= i < |csd| - 4 && csd[i] == 0 && csd[i + 1] == 0 && csd[i + 2] == 0 && csd[i + 3] == 1
  }

  /** The first index from `from` where the scan finds a start code. */
  function FirstCode4(csd: seq<byte>, from: nat): (r: Option<int>)
    ensures r.Some? ==> from <= r.value && Code4At(csd, r.value) && forall j :: from <= j < r.value ==> !Code4At(csd, j)
    ensures r.None? ==> forall j :: from <= j ==> !Code4At(csd, j)
    decreases |csd| - from
  {
    if from >= |csd| - 4 then None
    else if Code4At(csd, from) then Some(from)
    else FirstCode4(csd, from + 1)
  }

  /** The indices `decodeSpsPpsFromBuffer`'s scan stops with: the first start code and the one after it. */
  function CodeIndices(csd: seq<byte>): (Option<int>, Option<int>)
  {
    var sps := FirstCode4(csd, 0);
    if sps.None? then (None, None) else (sps, FirstCode4(csd, sps.value + 1))
  }

  /** The scan of `decodeSpsPpsFromBuffer`: the index of the first start code and of the second (-1 when missing). */
  method ScanSpsPps(csd: seq<byte>) returns (spsIndex: int, ppsIndex: int)
    ensures spsIndex == CodeIndices(csd).0.GetOr(-1)
    ensures ppsIndex == CodeIndices(csd).1.GetOr(-1)
  {
    var i := 0;
    spsIndex := -1;
    ppsIndex := -1;
    while i < |csd| - 4
      invariant 0 <= i
      invariant spsIndex == -1 ==> FirstCode4(csd, 0) == FirstCode4(csd, i)
      invariant spsIndex != -1 ==>
        FirstCode4(csd, 0) == Some(spsIndex) && spsIndex < i && FirstCode4(csd, spsIndex + 1) == FirstCode4(csd, i)
      invariant ppsIndex == -1
    {
      if csd[i] == 0 && csd[i + 1] == 0 && csd[i + 2] == 0 && csd[i + 3] == 1 {
        if spsIndex == -1 {
          spsIndex := i;
        } else {
          ppsIndex := i;
          break;
        }
      }
      i := i + 1;
    }
  }

  /**
   * `decodeSpsPpsFromBuffer` as written: the SPS array has `ppsIndex`
   * bytes and is copied from `spsIndex`, so it runs past the PPS start
   * (or past the end, which throws) whenever `spsIndex > 0`.
   */
  function DecodeSpsPpsAsWritten(csd: seq<byte>): (r: Outcome<Option<(seq<byte>, seq<byte>)>>)
    ensures var (sps, pps) := CodeIndices(csd);
      (r.Threw? <==> sps.Some? && pps.Some? && sps.value + pps.value > |csd|) &&
      (r.Threw? ==> r.fault == IndexOutOfBounds) &&
      (r.Ok? && r.value.Some? ==> pps.Some? && 0 <= pps.value <= |csd| &&
                                  |r.value.value.0| == pps.value && r.value.value.1 == csd[pps.value..])
  {
    var (sps, pps) := CodeIndices(csd);
    if sps.None? || pps.None? then Ok(None)
    else if sps.value + pps.value > |csd| then Threw(IndexOutOfBounds)
    else Ok(Some((csd[sps.value..sps.value + pps.value], csd[pps.value..])))
  }

  /** `decodeSpsPpsFromBuffer` with the SPS taken from its start code up to the PPS start code. */
  function DecodeSpsPps(csd: seq<byte>): (r: Option<(seq<byte>, seq<byte>)>)
    ensures var (sps, pps) := CodeIndices(csd);
      (r.Some? <==> sps.Some? && pps.Some?) &&
      (r.Some? ==> |r.value.0| == pps.value - sps.value && r.value.0 + r.value.1 == csd[sps.value..])
  {
    var (sps, pps) := CodeIndices(csd);
    if sps.None? || pps.None? then None
    else Some((csd[sps.value..pps.value], csd[pps.value..]))
  }

  /** The split, from the scan's two indices: SPS up to the PPS start code, PPS to the end. */
  method DecodeSpsPpsFromBuffer(csd: seq<byte>) returns (r: Option<(seq<byte>, seq<byte>)>)
    ensures r == DecodeSpsPps(csd)
  {
    var spsIndex, ppsIndex := ScanSpsPps(csd);
    r := None;
    if spsIndex != -1 && ppsIndex != -1 {
      var sps := csd[spsIndex..ppsIndex];
      var pps := csd[ppsIndex..];
      r := Some((sps, pps));
    }
  }

  /**
   * A split exists exactly when two start codes begin below `length - 4`;
   * the SPS and the PPS each begin with their start code, contain no other
   * before the PPS, and together are the buffer from the first start code
   * on (the whole buffer when it begins with one).
   */
  lemma DecodeSpsPpsSplits(csd: seq<byte>)
    ensures DecodeSpsPps(csd).Some? <==> exists i, j :: i < j && Code4At(csd, i) && Code4At(csd, j)
    ensures DecodeSpsPps(csd).Some? ==>
      var (sps, pps) := DecodeSpsPps(csd).value;
      var start := CodeIndices(csd).0.value;
      sps[..4] == [0, 0, 0, 1] && pps[..4] == [0, 0, 0, 1] &&
      sps + pps == csd[start..] &&
      (forall j :: start < j < start + |sps| ==> !Code4At(csd, j)) &&
      (Code4At(csd, 0) ==> sps + pps == csd)
  {
    var (sps, pps) := CodeIndices(csd);
    if sps.Some? && pps.Some? {
      assert csd[sps.value..pps.value] + csd[pps.value..] == csd[sps.value..];
      assert csd[0..] == csd;
    }
  }

  /** Both splits agree when the buffer begins with its start code. */
  lemma AsWrittenAgreesAtZero(csd: seq<byte>)
    requires Code4At(csd, 0)
    ensures DecodeSpsPpsAsWritten(csd) == Ok(DecodeSpsPps(csd))
  {
  }

  /**
   * With one byte before the first start code, the SPS as written runs
   * one byte into the PPS's start code.
   */
  lemma AsWrittenOverrunsSps()
    ensures var csd: seq<byte> := [0xAA, 0, 0, 0, 1, 0x67, 0, 0, 0, 1, 0x68, 0x01];
      DecodeSpsPpsAsWritten(csd) == Ok(Some(([0, 0, 0, 1, 0x67, 0], [0, 0, 0, 1, 0x68, 0x01]))) &&
      DecodeSpsPps(csd) == Some(([0, 0, 0, 1, 0x67], [0, 0, 0, 1, 0x68, 0x01]))
  {
    var csd: seq<byte> := [0xAA, 0, 0, 0, 1, 0x67, 0, 0, 0, 1, 0x68, 0x01];
    assert !Code4At(csd, 0) && Code4At(csd, 1);
    assert FirstCode4(csd, 0) == Some(1);
    assert !Code4At(csd, 2) && !Code4At(csd, 3) && !Code4At(csd, 4) && !Code4At(csd, 5) && Code4At(csd, 6);
    assert FirstCode4(csd, 6) == Some(6);
    assert FirstCode4(csd, 5) == Some(6);
    assert FirstCode4(csd, 4) == Some(6);
    assert FirstCode4(csd, 3) == Some(6);
    assert FirstCode4(csd, 2) == Some(6);
    assert CodeIndices(csd) == (Some(1), Some(6));
    assert csd[1..7] == [0, 0, 0, 1, 0x67, 0];
    assert csd[1..6] == [0, 0, 0, 1, 0x67];
    assert csd[6..] == [0, 0, 0, 1, 0x68, 0x01];
  }

  // ---------------------------------------------------------------------
  // H.265: VPS, SPS and PPS from `csd-0`
  // ---------------------------------------------------------------------

  /** The number of zero bytes directly before index `k`. */
  function ZeroRun(csd: seq<byte>, k: nat): nat
    requires k <= |csd|
  {
    if k == 0 || csd[k - 1] != 0 then 0 else ZeroRun(csd, k - 1) + 1
  }

  /** A `01` preceded by exactly three zero bytes: the scan records `i - 3`. */
  predicate MarkAt(csd: seq<byte>, i: int)
    requires 0 <= i < |csd|
  {
    ZeroRun(csd, i) == 3 && csd[i] == 1
  }

  /** The indices below `k` at which a mark is found, in order. */
  function Marks(csd: seq<byte>, k: nat): seq<int>
    requires k <= |csd|
  {
    if k == 0 then [] else Marks(csd, k - 1) + (if MarkAt(csd, k - 1) then [k - 1] else [])
  }

  /** The scan's positions: the first mark's, the second's, and the latest after those (-1 while missing). */
  datatype Positions = Positions(vps: int, sps: int, pps: int)

  /** The positions recorded after scanning `k` bytes. */
  function PositionsOf(ms: seq<int>): Positions
  {
    Positions(if |ms| >= 1 then ms[0] - 3 else -1,
              if |ms| >= 2 then ms[1] - 3 else -1,
              if |ms| >= 3 then ms[|ms| - 1] - 3 else -1)
  }

  /** The marks are increasing indices at least 3. */
  lemma {:induction false} MarksIncrease(csd: seq<byte>, k: nat)
    requires k <= |csd|
    ensures forall a :: 0 <= a < |Marks(csd, k)| ==> 3 <= Marks(csd, k)[a] < k
    ensures forall a, b :: 0 <= a < b < |Marks(csd, k)| ==> Marks(csd, k)[a] < Marks(csd, k)[b]
  {
    if k > 0 {
      MarksIncrease(csd, k - 1);
      if MarkAt(csd, k - 1) {
        ZeroRunBound(csd, k - 1);
      }
    }
  }

  lemma {:induction false} ZeroRunBound(csd: seq<byte>, k: nat)
    requires k <= |csd|
    ensures ZeroRun(csd, k) <= k
  {
    if k > 0 && csd[k - 1] == 0 {
      ZeroRunBound(csd, k - 1);
    }
  }

  /** One mark seen by the scan: the first two fill the VPS and SPS positions, every later one the PPS position. */
  function Record(p: Positions, at: int): Positions
  {
    if p.vps == -1 then p.(vps := at)
    else if p.sps == -1 then p.(sps := at)
    else p.(pps := at)
  }

  lemma RecordMark(ms: seq<int>, m: int)
    requires forall a :: 0 <= a < |ms| ==> 3 <= ms[a]
    requires 3 <= m
    ensures PositionsOf(ms + [m]) == Record(PositionsOf(ms), m - 3)
  {
  }

  /** What one more byte does to the zero run and the positions. */
  lemma MarkStep(csd: seq<byte>, i: nat)
    requires i < |csd|
    ensures ZeroRun(csd, i + 1) == if csd[i] == 0 then ZeroRun(csd, i) + 1 else 0
    ensures MarkAt(csd, i) ==> PositionsOf(Marks(csd, i + 1)) == Record(PositionsOf(Marks(csd, i)), i - 3)
    ensures !MarkAt(csd, i) ==> Marks(csd, i + 1) == Marks(csd, i)
  {
    if MarkAt(csd, i) {
      MarksIncrease(csd, i);
      ZeroRunBound(csd, i);
      RecordMark(Marks(csd, i), i);
    }
  }

  /** The loop of `extractVpsSpsPpsFromH265` that records the positions. */
  method FindH265Positions(csd: seq<byte>) returns (p: Positions)
    ensures p == PositionsOf(Marks(csd, |csd|))
  {
    p := Positions(-1, -1, -1);
    var contBufferInitiation := 0;
    var i := 0;
    while i < |csd|
      invariant 0 <= i <= |csd|
      invariant contBufferInitiation == ZeroRun(csd, i)
      invariant p == PositionsOf(Marks(csd, i))
    {
      MarkStep(csd, i);
      if contBufferInitiation == 3 && csd[i] == 1 {
        p := Record(p, i - 3);
      }
      if csd[i] == 0 {
        contBufferInitiation := contBufferInitiation + 1;
      } else {
        contBufferInitiation := 0;
      }
      i := i + 1;
    }
  }

  /**
   * `extractVpsSpsPpsFromH265`: the bytes before the SPS position, between
   * it and the PPS position, and from the PPS position on; a missing
   * position makes an array size negative.
   */
  function SplitH265(csd: seq<byte>): (r: Outcome<(seq<byte>, seq<byte>, seq<byte>)>)
    ensures r.Ok? ==> r.value.0 + r.value.1 + r.value.2 == csd
    ensures r.Threw? ==> r.fault == NegativeArraySize
  {
    var p := PositionsOf(Marks(csd, |csd|));
    MarksIncrease(csd, |csd|);
    if p.sps < 0 || p.pps - p.sps < 0 then Threw(NegativeArraySize)
    else Ok((csd[..p.sps], csd[p.sps..p.pps], csd[p.pps..]))
  }

  /**
   * The split succeeds exactly when there are three marks, and then
   * partitions the buffer at the second mark's and the last mark's start
   * codes: VPS ++ SPS ++ PPS is the input.
   */
  lemma SplitH265Partitions(csd: seq<byte>)
    ensures SplitH265(csd).Ok? <==> |Marks(csd, |csd|)| >= 3
    ensures SplitH265(csd).Ok? ==>
      var (vps, sps, pps) := SplitH265(csd).value;
      var ms := Marks(csd, |csd|);
      vps + sps + pps == csd && |vps| == ms[1] - 3 && |vps| + |sps| == ms[|ms| - 1] - 3
  {
    MarksIncrease(csd, |csd|);
    var ms := Marks(csd, |csd|);
    if |ms| >= 3 {
      var s := ms[1] - 3;
      var q := ms[|ms| - 1] - 3;
      assert csd[..s] + csd[s..q] + csd[q..] == csd;
    }
  }

  /** `extractVpsSpsPpsFromH265`: the positions, then each byte copied to the part it falls in. */
  method ExtractVpsSpsPpsFromH265(csd: seq<byte>) returns (r: Outcome<(seq<byte>, seq<byte>, seq<byte>)>)
    ensures r == SplitH265(csd)
  {
    var p := FindH265Positions(csd);
    MarksIncrease(csd, |csd|);
    if p.sps < 0 || p.pps - p.sps < 0 {
      return Threw(NegativeArraySize);
    }
    var vps, sps, pps := [], [], [];
    var i := 0;
    while i < |csd|
      invariant 0 <= i <= |csd|
      invariant vps == csd[..Min(i, p.sps)]
      invariant sps == csd[Min(i, p.sps)..Min(i, p.pps)]
      invariant pps == csd[Min(i, p.pps)..i]
    {
      if i < p.sps {
        vps := vps + [csd[i]];
      } else if i < p.pps {
        sps := sps + [csd[i]];
      } else {
        pps := pps + [csd[i]];
      }
      i := i + 1;
    }
    assert csd[p.pps..i] == csd[p.pps..];
    r := Ok((vps, sps, pps));
  }

  // ---------------------------------------------------------------------
  // The encoder's flags
  // ---------------------------------------------------------------------

  /** What `onSpsPpsVps` receives. */
  datatype ParameterSets = ParameterSets(sps: seq<byte>, pps: seq<byte>, vps: Option<seq<byte>>)

  class Encoder {
    var running: bool
    var bitrate: int
    var spsPpsSetted: bool
    /** The calls made to `onSpsPpsVps`, in order. */
    var sent: seq<ParameterSets>

    constructor(initialBitrate: int)
      ensures !running && bitrate == initialBitrate && !spsPpsSetted && sent == []
    {
      running := false;
      bitrate := initialBitrate;
      spsPpsSetted := false;
      sent := [];
    }

    /** `start`: forget the parameter sets sent and run. */
    method Start()
      modifies this`running, this`spsPpsSetted
      ensures running && !spsPpsSetted
    {
      spsPpsSetted := false;
      running := true;
    }

    /** `stop`: stopped; the flag is cleared only when the codec stops and releases normally. */
    method Stop(codecStops: bool)
      modifies this`running, this`spsPpsSetted
      ensures !running && spsPpsSetted == (old(spsPpsSetted) && !codecStops)
    {
      running := false;
      if codecStops {
        spsPpsSetted := false;
      }
    }

    /** `setVideoBitrateOnFly`: only a running encoder takes the new bitrate. */
    method SetVideoBitrateOnFly(newBitrate: int)
      modifies this`bitrate
      ensures bitrate == if running then newBitrate else old(bitrate)
    {
      if running {
        bitrate := newBitrate;
      }
    }

    /**
     * `checkBuffer`: a codec-config buffer, while no parameter sets were
     * sent since start, is split and its SPS/PPS sent once.
     */
    method CheckBuffer(codecConfig: bool, csd: seq<byte>)
      modifies this`spsPpsSetted, this`sent
      ensures var split := DecodeSpsPps(csd);
        if codecConfig && !old(spsPpsSetted) && split.Some?
        then spsPpsSetted && sent == old(sent) + [ParameterSets(split.value.0, split.value.1, None)]
        else spsPpsSetted == old(spsPpsSetted) && sent == old(sent)
    {
      if codecConfig {
        if !spsPpsSetted {
          var buffers := DecodeSpsPpsFromBuffer(csd);
          if buffers.Some? {
            sent := sent + [ParameterSets(buffers.value.0, buffers.value.1, None)];
            spsPpsSetted := true;
          }
        }
      }
    }

    /** `processOutput`: only a running encoder checks its output buffers. */
    method ProcessOutput(codecConfig: bool, csd: seq<byte>)
      modifies this`spsPpsSetted, this`sent
      ensures !running ==> spsPpsSetted == old(spsPpsSetted) && sent == old(sent)
      ensures running ==>
        var split := DecodeSpsPps(csd);
        if codecConfig && !old(spsPpsSetted) && split.Some?
        then spsPpsSetted && sent == old(sent) + [ParameterSets(split.value.0, split.value.1, None)]
        else spsPpsSetted == old(spsPpsSetted) && sent == old(sent)
      ensures old(spsPpsSetted) ==> spsPpsSetted && sent == old(sent)
      ensures |sent| <= |old(sent)| + 1
    {
      if running {
        CheckBuffer(codecConfig, csd);
      }
    }

    /**
     * `formatChanged`: the format's parameter sets are sent (H.265's split
     * out of `csd-0`, which may throw) and the flag is set.
     */
    method FormatChanged(h265: bool, csd0: seq<byte>, csd1: seq<byte>) returns (fault: Option<Fault>)
      modifies this`spsPpsSetted, this`sent
      ensures h265 && SplitH265(csd0).Threw? ==>
        fault == Some(SplitH265(csd0).fault) && sent == old(sent) && spsPpsSetted == old(spsPpsSetted)
      ensures h265 && SplitH265(csd0).Ok? ==>
        var (vps, sps, pps) := SplitH265(csd0).value;
        fault.None? && spsPpsSetted && sent == old(sent) + [ParameterSets(sps, pps, Some(vps))]
      ensures !h265 ==> fault.None? && spsPpsSetted && sent == old(sent) + [ParameterSets(csd0, csd1, None)]
    {
      if h265 {
        var split := ExtractVpsSpsPpsFromH265(csd0);
        if split.Threw? {
          return Some(split.fault);
        }
        var (vps, sps, pps) := split.value;
        sent := sent + [ParameterSets(sps, pps, Some(vps))];
      } else {
        sent := sent + [ParameterSets(csd0, csd1, None)];
      }
      spsPpsSetted := true;
      fault := None;
    }
  }

  /**
   * Between a start and the next stop, codec-config buffers send at most
   * one set of parameter sets, however many arrive: the checks of a
   * sequence of buffers add at most one call.
   */
  lemma CheckBuffersSendOnce(flag: bool, buffers: seq<(bool, seq<byte>)>)
    ensures |CheckedAll(flag, buffers).1| <= 1
    ensures flag ==> CheckedAll(flag, buffers).1 == []
  {
    CheckedAllOnce(flag, buffers);
  }

  /** The flag and the sets sent after checking each buffer in turn, starting from `flag`. */
  function CheckedAll(flag: bool, buffers: seq<(bool, seq<byte>)>): (bool, seq<ParameterSets>)
    decreases |buffers|
  {
    if buffers == [] then (flag, [])
    else
      var (codecConfig, csd) := buffers[0];
      var split := DecodeSpsPps(csd);
      if codecConfig && !flag && split.Some? then
        var rest := CheckedAll(true, buffers[1..]);
        (rest.0, [ParameterSets(split.value.0, split.value.1, None)] + rest.1)
      else CheckedAll(flag, buffers[1..])
  }

  lemma {:induction false} CheckedAllOnce(flag: bool, buffers: seq<(bool, seq<byte>)>)
    ensures |CheckedAll(flag, buffers).1| <= (if flag then 0 else 1)
    decreases |buffers|
  {
    if buffers != [] {
      var (codecConfig, csd) := buffers[0];
      if codecConfig && !flag && DecodeSpsPps(csd).Some? {
        CheckedAllOnce(true, buffers[1..]);
      } else {
        CheckedAllOnce(flag, buffers[1..]);
      }
    }
  }
}
