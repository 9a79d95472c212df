/**
 * `SrsMp4Muxer.Track`: the per-track sample list, the sample durations
 * (in the track's timescale) and the sync-sample numbers that the
 * sample tables are later built from.
 */
module Mp4Track {
  import opened Base
  import opened Mp4Tables

  const VIDEO_TIMESCALE: int := 90000
  /** The duration seeded into a new track's list, which stays its last entry. */
  const VIDEO_SEED_DURATION: int := 3015
  const AUDIO_SEED_DURATION: int := 1024
  const MICROSECONDS: int := 1000000

  function SeedDuration(isAudio: bool): int
  {
    if isAudio then AUDIO_SEED_DURATION else VIDEO_SEED_DURATION
  }

  /**
   * A presentation-time step in microseconds converted to the timescale,
   * rounded half up: `(delta * timeScale + 500000) / 1000000` in Java's
   * long arithmetic (overflow is not modelled).
   */
  function ScaledDelta(deltaUs: int, timeScale: int): (d: int)
    requires deltaUs >= 0 && timeScale >= 0
    ensures d >= 0
    ensures d * MICROSECONDS <= deltaUs * timeScale + MICROSECONDS / 2 < (d + 1) * MICROSECONDS
  {
    var n := deltaUs * timeScale + MICROSECONDS / 2;
    MulNonNegative(deltaUs, timeScale);
    TruncDiv(n, MICROSECONDS)
  }

  lemma MulNonNegative(a: int, b: int)
    requires a >= 0 && b >= 0
    ensures a * b >= 0
  {
  }

  /** Every element is larger than the one before it. */
  predicate StrictlyIncreasing(xs: seq<int>)
  {
    forall i :: 0 < i < |xs| ==> xs[i - 1] < xs[i]
  }

  /** A track's fields. */
  datatype TrackState = TrackState(
    isAudio: bool,
    timeScale: int,
    samples: seq<Sample>,
    durations: seq<int>,
    duration: int,
    syncSamples: Option<seq<int>>,
    lastPtsUs: int,
    first: bool)
  {
    /**
     * The track's invariant: one duration per sample (one before the
     * first), the seed still last, `duration` their sum, and the
     * sync-sample numbers (video only) increasing 1-based sample numbers.
     */
    ghost predicate Ok()
    {
      |durations| == Max(|samples|, 1) &&
      durations[|durations| - 1] == SeedDuration(isAudio) &&
      duration == Sum(durations) &&
      (first <==> samples == []) &&
      (isAudio <==> syncSamples.None?) &&
      (syncSamples.Some? ==>
        StrictlyIncreasing(syncSamples.value) &&
        forall i :: 0 <= i < |syncSamples.value| ==> 1 <= syncSamples.value[i] <= |samples|)
    }

    /** `addSample`: a sample at `offset` of `size` bytes presented at `ptsUs`. */
    function Added(offset: int, ptsUs: int, size: int, syncFrame: bool): TrackState
      requires timeScale >= 0 && durations != []
    {
      var delta := ptsUs - lastPtsUs;
      if delta < 0 then this
      else
        var samples' := samples + [Sample(offset, size)];
        var sync' :=
          if syncSamples.Some? && !isAudio && syncFrame then Some(syncSamples.value + [|samples'|])
          else syncSamples;
        var d := ScaledDelta(delta, timeScale);
        if first then this.(samples := samples', syncSamples := sync', lastPtsUs := ptsUs, first := false)
        else
          this.(samples := samples', syncSamples := sync', lastPtsUs := ptsUs, first := false,
                durations := durations[..|durations| - 1] + [d, durations[|durations| - 1]],
                duration := duration + d)
    }

    /** `getSyncSamples`: null when there is no list or it is empty. */
    function SyncTable(): Option<seq<int>>
    {
      if syncSamples.None? || syncSamples.value == [] then None else syncSamples
    }
  }

  /** A new track: video at 90 kHz with a sync list, audio at its sample rate without one. */
  function Initial(isAudio: bool, sampleRate: int): (t: TrackState)
    ensures t.Ok()
  {
    TrackState(isAudio, if isAudio then sampleRate else VIDEO_TIMESCALE,
               [], [SeedDuration(isAudio)], SeedDuration(isAudio),
               if isAudio then None else Some([]), 0, true)
  }

  /** Inserting `d` before the last duration adds `d` to the sum. */
  lemma SumInsertBeforeLast(xs: seq<int>, d: int)
    requires xs != []
    ensures Sum(xs[..|xs| - 1] + [d, xs[|xs| - 1]]) == Sum(xs) + d
  {
    var init, last := xs[..|xs| - 1], xs[|xs| - 1];
    assert xs == init + [last];
    assert init + [d, last] == (init + [d]) + [last];
    SumSnoc(init + [d], last);
    SumSnoc(init, d);
    SumSnoc(init, last);
  }

  /**
   * `addSample` keeps the track's invariant, and either ignores a sample
   * presented before the last one or appends it: a sync-flagged video
   * sample is numbered with its 1-based index, and every sample but the
   * first adds its scaled presentation step to the duration, as a new
   * duration just before the seed.
   */
  lemma AddedKeepsOk(t: TrackState, offset: int, ptsUs: int, size: int, syncFrame: bool)
    requires t.Ok() && t.timeScale >= 0
    ensures var t' := t.Added(offset, ptsUs, size, syncFrame);
      t'.Ok() &&
      (ptsUs < t.lastPtsUs ==> t' == t) &&
      (ptsUs >= t.lastPtsUs ==>
        var d := ScaledDelta(ptsUs - t.lastPtsUs, t.timeScale);
        t'.samples == t.samples + [Sample(offset, size)] && t'.lastPtsUs == ptsUs &&
        t'.duration == t.duration + (if t.first then 0 else d) &&
        t'.durations == (if t.first then t.durations
                         else t.durations[..|t.durations| - 1] + [d, SeedDuration(t.isAudio)]) &&
        t'.syncSamples == (if !t.isAudio && syncFrame then Some(t.syncSamples.value + [|t'.samples|])
                           else t.syncSamples))
  {
    if ptsUs >= t.lastPtsUs && !t.first {
      SumInsertBeforeLast(t.durations, ScaledDelta(ptsUs - t.lastPtsUs, t.timeScale));
    }
  }

  /**
   * The sync table is null for audio and for a video track without sync
   * samples; otherwise it lists them, increasing and within the samples.
   */
  lemma SyncTableShape(t: TrackState)
    requires t.Ok()
    ensures t.isAudio ==> t.SyncTable().None?
    ensures t.SyncTable().Some? ==>
      t.SyncTable().value != [] && StrictlyIncreasing(t.SyncTable().value) &&
      forall i :: 0 <= i < |t.SyncTable().value| ==> 1 <= t.SyncTable().value[i] <= |t.samples|
  {
  }

  class Track {
    const trackId: int
    const isAudio: bool
    const timeScale: int
    var samples: seq<Sample>
    var sampleDurations: seq<int>
    var duration: int
    var syncSamples: Option<seq<int>>
    var lastPresentationTimeUs: int
    var first: bool

    function State(): TrackState
      reads this
    {
      TrackState(isAudio, timeScale, samples, sampleDurations, duration, syncSamples, lastPresentationTimeUs, first)
    }

    ghost predicate Valid()
      reads this
    {
      State().Ok() && timeScale >= 0
    }

    /** The track's sample tables start empty; the format's sample rate is the audio timescale. */
    constructor(id: int, audio: bool, sampleRate: int)
      requires sampleRate >= 0
      ensures Valid() && trackId == id && State() == Initial(audio, sampleRate)
    {
      trackId := id;
      isAudio := audio;
      samples := [];
      first := true;
      lastPresentationTimeUs := 0;
      if !audio {
        sampleDurations := [VIDEO_SEED_DURATION];
        duration := VIDEO_SEED_DURATION;
        timeScale := VIDEO_TIMESCALE;
        syncSamples := Some([]);
      } else {
        sampleDurations := [AUDIO_SEED_DURATION];
        duration := AUDIO_SEED_DURATION;
        timeScale := sampleRate;
        syncSamples := None;
      }
    }

    /** `addSample`, with the buffer's size, presentation time and sync flag as arguments. */
    method AddSample(offset: int, ptsUs: int, size: int, syncFlag: bool)
      requires Valid()
      modifies this
      ensures Valid()
      ensures State() == old(State()).Added(offset, ptsUs, size, syncFlag)
    {
      AddedKeepsOk(State(), offset, ptsUs, size, syncFlag);
      var delta := ptsUs - lastPresentationTimeUs;
      if delta < 0 {
        return;
      }
      var isSyncFrame := !isAudio && syncFlag;
      samples := samples + [Sample(offset, size)];
      if syncSamples.Some? && isSyncFrame {
        syncSamples := Some(syncSamples.value + [|samples|]);
      }
      delta := ScaledDelta(delta, timeScale);
      lastPresentationTimeUs := ptsUs;
      if !first {
        var last := sampleDurations[|sampleDurations| - 1];
        sampleDurations := sampleDurations[..|sampleDurations| - 1] + [delta, last];
        duration := duration + delta;
      }
      first := false;
    }

    /** `getSyncSamples`: the sync-sample numbers copied out, or null when there are none. */
    method GetSyncSamples() returns (r: Option<seq<int>>)
      requires Valid()
      ensures r == State().SyncTable()
      ensures r.Some? ==> r.value != [] && StrictlyIncreasing(r.value)
    {
      SyncTableShape(State());
      if syncSamples.None? || syncSamples.value == [] {
        return None;
      }
      var ss := syncSamples.value;
      var copy: seq<int> := [];
      var i := 0;
      while i < |ss|
        invariant 0 <= i <= |ss|
        invariant copy == ss[..i]
      {
        copy := copy + [ss[i]];
        i := i + 1;
      }
      assert ss[..i] == ss;
      r := Some(copy);
    }
  }
}
