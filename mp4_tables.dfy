/**
 * The sample-table arithmetic of `SrsMp4Muxer` (ISO/IEC 14496-12): the
 * decoding-time table (stts, section 8.6.1.2), the sample-to-chunk table
 * (stsc, section 8.7.4), the chunk offsets (stco, section 8.7.5), the
 * movie timescale, and the header of the media-data box.
 */
module Mp4Tables {
  import opened Base

  /** A sample's place in the file: its byte offset and its size. */
  datatype Sample = Sample(offset: int, size: int)
  {
    function End(): int
    {
      offset + size
    }
  }

  // ---------------------------------------------------------------------
  // stts: run-length encoding of the sample durations
  // ---------------------------------------------------------------------

  /** An stts entry: `count` consecutive samples lasting `delta` each. */
  datatype SttsEntry = SttsEntry(count: int, delta: int)

  /** One duration into the table: extend the last entry when its delta matches, otherwise open a new one. */
  function SttsPush(es: seq<SttsEntry>, d: int): seq<SttsEntry>
  {
    if es != [] && es[|es| - 1].delta == d then
      es[..|es| - 1] + [SttsEntry(es[|es| - 1].count + 1, d)]
    else es + [SttsEntry(1, d)]
  }

  /** `createStts` on the first `k` durations. */
  function SttsPrefix(ds: seq<int>, k: nat): seq<SttsEntry>
    requires k <= |ds|
  {
    if k == 0 then [] else SttsPush(SttsPrefix(ds, k - 1), ds[k - 1])
  }

  /** `createStts`: the entries for every duration, in order. */
  method CreateStts(ds: seq<int>) returns (entries: seq<SttsEntry>)
    ensures entries == SttsPrefix(ds, |ds|)
  {
    entries := [];
    var i := 0;
    while i < |ds|
      invariant 0 <= i <= |ds|
      invariant entries == SttsPrefix(ds, i)
    {
      var delta := ds[i];
      ghost var before := entries;
      if entries != [] && entries[|entries| - 1].delta == delta {
        entries := entries[..|entries| - 1] + [SttsEntry(entries[|entries| - 1].count + 1, delta)];
      } else {
        entries := entries + [SttsEntry(1, delta)];
      }
      assert entries == SttsPush(before, ds[i]);
      assert SttsPrefix(ds, i + 1) == SttsPush(SttsPrefix(ds, i), ds[i]);
      i := i + 1;
    }
  }

  /** `n` copies of `d`. */
  function Repeat(d: int, n: int): seq<int>
    decreases n
  {
    if n <= 0 then [] else Repeat(d, n - 1) + [d]
  }

  /** The durations an stts table stands for: each entry's delta, `count` times. */
  function Expand(es: seq<SttsEntry>): seq<int>
  {
    if es == [] then []
    else Expand(es[..|es| - 1]) + Repeat(es[|es| - 1].delta, es[|es| - 1].count)
  }

  /** Every entry covers at least one sample, and neighbouring entries have different deltas. */
  ghost predicate SttsCompact(es: seq<SttsEntry>)
  {
    (forall i :: 0 <= i < |es| ==> es[i].count >= 1) &&
    (forall i :: 0 < i < |es| ==> es[i - 1].delta != es[i].delta)
  }

  lemma ExpandSnoc(init: seq<SttsEntry>, e: SttsEntry)
    ensures Expand(init + [e]) == Expand(init) + Repeat(e.delta, e.count)
  {
    assert (init + [e])[..|init + [e]| - 1] == init;
  }

  /** Counting one more sample in the last entry appends its delta to the expansion. */
  lemma ExpandExtendLast(init: seq<SttsEntry>, c: int, d: int)
    requires c >= 1
    ensures Expand(init + [SttsEntry(c + 1, d)]) == Expand(init + [SttsEntry(c, d)]) + [d]
  {
    ExpandSnoc(init, SttsEntry(c + 1, d));
    ExpandSnoc(init, SttsEntry(c, d));
    var a, r := Expand(init), Repeat(d, c);
    assert Repeat(d, c + 1) == r + [d];
    assert a + (r + [d]) == (a + r) + [d];
  }

  /** Pushing a duration keeps the table compact and makes it the last entry's delta. */
  lemma SttsPushCompact(es: seq<SttsEntry>, d: int)
    requires SttsCompact(es)
    ensures SttsCompact(SttsPush(es, d))
    ensures SttsPush(es, d) != [] && SttsPush(es, d)[|SttsPush(es, d)| - 1].delta == d
  {
    var r := SttsPush(es, d);
    if es != [] && es[|es| - 1].delta == d {
      assert |r| == |es| && forall i :: 0 <= i < |es| - 1 ==> r[i] == es[i];
    } else {
      assert |r| == |es| + 1 && forall i :: 0 <= i < |es| ==> r[i] == es[i];
    }
  }

  /** Pushing a duration onto a compact table appends it to the expansion. */
  lemma SttsPushExpand(es: seq<SttsEntry>, d: int)
    requires SttsCompact(es)
    ensures Expand(SttsPush(es, d)) == Expand(es) + [d]
  {
    if es != [] && es[|es| - 1].delta == d {
      var init, c := es[..|es| - 1], es[|es| - 1].count;
      assert es == init + [SttsEntry(c, d)];
      ExpandExtendLast(init, c, d);
    } else {
      ExpandSnoc(es, SttsEntry(1, d));
    }
  }

  /** The last stts entry is for the last duration read, and the table stays compact. */
  lemma {:induction false} SttsPrefixCompact(ds: seq<int>, k: nat)
    requires k <= |ds|
    ensures SttsCompact(SttsPrefix(ds, k))
    ensures k > 0 ==> SttsPrefix(ds, k) != [] && SttsPrefix(ds, k)[|SttsPrefix(ds, k)| - 1].delta == ds[k - 1]
  {
    if k > 0 {
      SttsPrefixCompact(ds, k - 1);
      SttsPushCompact(SttsPrefix(ds, k - 1), ds[k - 1]);
    }
  }

  /** Reading one more duration appends it to the expansion of the table. */
  lemma SttsPrefixExpandStep(ds: seq<int>, k: nat)
    requires 0 < k <= |ds|
    ensures Expand(SttsPrefix(ds, k)) == Expand(SttsPrefix(ds, k - 1)) + [ds[k - 1]]
  {
    SttsPrefixCompact(ds, k - 1);
    SttsPushExpand(SttsPrefix(ds, k - 1), ds[k - 1]);
  }

  /** The stts table is a run-length encoding of the durations: expanding it gives them back. */
  lemma {:induction false} SttsRoundTrip(ds: seq<int>, k: nat)
    requires k <= |ds|
    ensures Expand(SttsPrefix(ds, k)) == ds[..k]
  {
    if k > 0 {
      SttsRoundTrip(ds, k - 1);
      SttsPrefixExpandStep(ds, k);
      assert ds[..k] == ds[..k - 1] + [ds[k - 1]];
    }
  }

  // ---------------------------------------------------------------------
  // Chunks: maximal runs of samples that follow each other in the file
  // ---------------------------------------------------------------------

  /** Sample `i` opens a chunk: it is the first, or does not start where the one before ends. */
  predicate ChunkStart(samples: seq<Sample>, i: int)
    requires 0 <= i < |samples|
  {
    i == 0 || samples[i - 1].End() != samples[i].offset
  }

  /** The offsets of the chunk-opening samples among the first `k`. */
  function StartOffsets(samples: seq<Sample>, k: nat): seq<int>
    requires k <= |samples|
  {
    if k == 0 then []
    else StartOffsets(samples, k - 1) + (if ChunkStart(samples, k - 1) then [samples[k - 1].offset] else [])
  }

  /** `createStco` on the first `k` samples: the offsets so far and `lastOffset` (-1 while none). */
  function StcoPrefix(samples: seq<Sample>, k: nat): (seq<int>, int)
    requires k <= |samples|
  {
    if k == 0 then ([], -1)
    else
      var p := StcoPrefix(samples, k - 1);
      var offset := samples[k - 1].offset;
      var last := if p.1 != -1 && p.1 != offset then -1 else p.1;
      (p.0 + (if last == -1 then [offset] else []), offset + samples[k - 1].size)
  }

  /** `createStco`: the chunk offsets, with -1 marking "no contiguous run in progress". */
  method CreateStco(samples: seq<Sample>) returns (offsets: seq<int>)
    ensures offsets == StcoPrefix(samples, |samples|).0
  {
    offsets := [];
    var lastOffset := -1;
    var i := 0;
    while i < |samples|
      invariant 0 <= i <= |samples|
      invariant offsets == StcoPrefix(samples, i).0 && lastOffset == StcoPrefix(samples, i).1
    {
      var offset := samples[i].offset;
      if lastOffset != -1 && lastOffset != offset {
        lastOffset := -1;
      }
      if lastOffset == -1 {
        offsets := offsets + [offset];
      }
      lastOffset := offset + samples[i].size;
      i := i + 1;
    }
  }

  /**
   * When no sample ends at byte -1 (offsets and sizes in a file are never
   * negative), the chunk offsets are exactly the offsets of the samples
   * that open a chunk.
   */
  lemma {:induction false} StcoIsChunkStarts(samples: seq<Sample>, k: nat)
    requires k <= |samples|
    requires forall i :: 0 <= i < |samples| ==> samples[i].End() != -1
    ensures StcoPrefix(samples, k).0 == StartOffsets(samples, k)
    ensures k > 0 ==> StcoPrefix(samples, k).1 == samples[k - 1].End()
  {
    if k > 0 {
      StcoIsChunkStarts(samples, k - 1);
      if k - 1 > 0 {
        assert StcoPrefix(samples, k - 1).1 != -1;
      }
    }
  }

  // ---------------------------------------------------------------------
  // stsc: samples per chunk, one entry per change
  // ---------------------------------------------------------------------

  /** An stsc entry: from chunk `firstChunk` on, `samplesPerChunk` samples each, description 1. */
  datatype StscEntry = StscEntry(firstChunk: int, samplesPerChunk: int, descriptionIndex: int)

  /** `createStsc`'s accumulators: the entries, the next chunk number, the open chunk's count, the last count written. */
  datatype StscState = StscState(entries: seq<StscEntry>, chunk: int, count: int, written: int)
  {
    /** A chunk of `count` samples closes: an entry is written when the count differs from the last one written. */
    function Close(count: int): StscState
    {
      if written != count then StscState(entries + [StscEntry(chunk, count, 1)], chunk + 1, 0, count)
      else StscState(entries, chunk + 1, 0, written)
    }
  }

  /** Sample `a` closes a chunk: it is the last one, or the next does not start where it ends. */
  predicate ChunkEnd(samples: seq<Sample>, a: int)
    requires 0 <= a < |samples|
  {
    a == |samples| - 1 || samples[a].End() != samples[a + 1].offset
  }

  /** `createStsc` on the first `k` samples. */
  function StscPrefix(samples: seq<Sample>, k: nat): StscState
    requires k <= |samples|
  {
    if k == 0 then StscState([], 1, 0, -1)
    else
      var st := StscPrefix(samples, k - 1);
      var count := st.count + 1;
      if !ChunkEnd(samples, k - 1) then st.(count := count) else st.Close(count)
  }

  /** `createStsc`: an entry at each chunk end whose sample count differs from the last entry's. */
  method CreateStsc(samples: seq<Sample>) returns (entries: seq<StscEntry>)
    ensures entries == StscPrefix(samples, |samples|).entries
  {
    entries := [];
    var lastChunkNumber := 1;
    var lastSampleCount := 0;
    var previousWritedChunkCount := -1;
    var a := 0;
    while a < |samples|
      invariant 0 <= a <= |samples|
      invariant StscState(entries, lastChunkNumber, lastSampleCount, previousWritedChunkCount) == StscPrefix(samples, a)
    {
      var lastOffset := samples[a].offset + samples[a].size;
      lastSampleCount := lastSampleCount + 1;
      var write := false;
      if a != |samples| - 1 {
        if lastOffset != samples[a + 1].offset {
          write := true;
        }
      } else {
        write := true;
      }
      if write {
        if previousWritedChunkCount != lastSampleCount {
          entries := entries + [StscEntry(lastChunkNumber, lastSampleCount, 1)];
          previousWritedChunkCount := lastSampleCount;
        }
        lastSampleCount := 0;
        lastChunkNumber := lastChunkNumber + 1;
      }
      a := a + 1;
    }
  }

  /**
   * The stsc entries are well formed: chunk numbers start at 1 and
   * strictly increase, every count is positive, and neighbouring entries
   * have different counts.
   */
  ghost predicate StscOrdered(es: seq<StscEntry>)
  {
    (forall i :: 0 <= i < |es| ==> es[i].firstChunk >= 1 && es[i].samplesPerChunk >= 1 && es[i].descriptionIndex == 1) &&
    (forall i :: 0 < i < |es| ==>
      es[i - 1].firstChunk < es[i].firstChunk && es[i - 1].samplesPerChunk != es[i].samplesPerChunk)
  }

  /** The accumulators agree with the entries: the last count written is the last entry's, and its chunk is behind. */
  ghost predicate StscAccumulators(st: StscState)
  {
    StscOrdered(st.entries) && st.count >= 0 &&
    (st.entries == [] ==> st.written == -1 && st.chunk == 1) &&
    (st.entries != [] ==> st.entries[0].firstChunk == 1 &&
                          st.written == st.entries[|st.entries| - 1].samplesPerChunk &&
                          st.entries[|st.entries| - 1].firstChunk < st.chunk)
  }

  /** Appending an entry for a later chunk with a different count keeps the entries ordered. */
  lemma StscAppendOrdered(es: seq<StscEntry>, e: StscEntry)
    requires StscOrdered(es) && e.firstChunk >= 1 && e.samplesPerChunk >= 1 && e.descriptionIndex == 1
    requires es != [] ==> es[|es| - 1].firstChunk < e.firstChunk && es[|es| - 1].samplesPerChunk != e.samplesPerChunk
    ensures StscOrdered(es + [e])
  {
  }

  /**
   * The entries stay ordered, the first is for chunk 1, and once a chunk
   * has closed there is at least one entry.
   */
  lemma {:induction false} StscWellFormed(samples: seq<Sample>, k: nat)
    requires k <= |samples|
    ensures StscAccumulators(StscPrefix(samples, k))
    ensures k > 0 && ChunkEnd(samples, k - 1) ==> StscPrefix(samples, k).entries != []
  {
    if k > 0 {
      StscWellFormed(samples, k - 1);
      var st := StscPrefix(samples, k - 1);
      var count := st.count + 1;
      if ChunkEnd(samples, k - 1) && st.written != count {
        StscAppendOrdered(st.entries, StscEntry(st.chunk, count, 1));
      }
    }
  }

  /**
   * The chunk counter moves once per chunk closed: after the first `k`
   * samples it is one more than the number of chunks they close, which is
   * the number of chunks opened among the first `k + 1` when there is a
   * sample after them.
   */
  lemma {:induction false} StscChunkCount(samples: seq<Sample>, k: nat)
    requires k <= |samples|
    ensures k < |samples| ==> StscPrefix(samples, k).chunk == |StartOffsets(samples, k + 1)|
    ensures k == |samples| ==> StscPrefix(samples, k).chunk == |StartOffsets(samples, k)| + 1
  {
    if k > 0 {
      StscChunkCount(samples, k - 1);
      if k < |samples| {
        assert ChunkStart(samples, k) <==> ChunkEnd(samples, k - 1);
      }
    } else if |samples| > 0 {
      assert ChunkStart(samples, 0);
    }
  }

  function Sum(xs: seq<int>): int
  {
    if xs == [] then 0 else Sum(xs[..|xs| - 1]) + xs[|xs| - 1]
  }

  lemma SumSnoc(xs: seq<int>, x: int)
    ensures Sum(xs + [x]) == Sum(xs) + x
  {
    assert (xs + [x])[..|xs|] == xs;
  }

  /** The number of samples of sample `a`'s chunk up to and including `a`. */
  function RunBefore(samples: seq<Sample>, a: int): (r: int)
    requires 0 <= a < |samples|
    ensures 1 <= r <= a + 1
    decreases a
  {
    if ChunkStart(samples, a) then 1 else RunBefore(samples, a - 1) + 1
  }

  /** The sample counts of the chunks closed among the first `k` samples, in chunk order. */
  function ChunkSizes(samples: seq<Sample>, k: nat): seq<int>
    requires k <= |samples|
  {
    if k == 0 then []
    else ChunkSizes(samples, k - 1) + (if ChunkEnd(samples, k - 1) then [RunBefore(samples, k - 1)] else [])
  }

  /** The samples among the first `k` that belong to a chunk not yet closed. */
  function OpenCount(samples: seq<Sample>, k: nat): int
    requires k <= |samples|
  {
    if k == 0 || ChunkEnd(samples, k - 1) then 0 else RunBefore(samples, k - 1)
  }

  /** Every sample is in exactly one chunk: the closed chunks and the open one hold all `k`. */
  lemma {:induction false} ChunkSizesCount(samples: seq<Sample>, k: nat)
    requires k <= |samples|
    ensures Sum(ChunkSizes(samples, k)) + OpenCount(samples, k) == k
    ensures forall c :: 0 <= c < |ChunkSizes(samples, k)| ==> ChunkSizes(samples, k)[c] >= 1
  {
    if k > 0 {
      ChunkSizesCount(samples, k - 1);
      RunBeforeFollows(samples, k);
      if ChunkEnd(samples, k - 1) {
        assert ChunkSizes(samples, k) == ChunkSizes(samples, k - 1) + [RunBefore(samples, k - 1)];
        SumSnoc(ChunkSizes(samples, k - 1), RunBefore(samples, k - 1));
      } else {
        assert ChunkSizes(samples, k) == ChunkSizes(samples, k - 1);
      }
    }
  }

  /** The run up to sample `k - 1` is one longer than the samples left open before it. */
  lemma {:induction false} RunBeforeFollows(samples: seq<Sample>, k: nat)
    requires 0 < k <= |samples|
    ensures RunBefore(samples, k - 1) == OpenCount(samples, k - 1) + 1
  {
    if k - 1 > 0 {
      assert ChunkStart(samples, k - 1) <==> ChunkEnd(samples, k - 2);
    }
  }

  /**
   * The per-chunk counts an stsc table stands for: each entry repeats its
   * count from its first chunk up to the chunk before the next entry's,
   * the last one up to chunk `chunks`.
   */
  function StscExpand(es: seq<StscEntry>, chunks: int): seq<int>
    decreases |es|
  {
    if es == [] then []
    else
      var e := es[|es| - 1];
      StscExpand(es[..|es| - 1], e.firstChunk - 1) + Repeat(e.samplesPerChunk, chunks - e.firstChunk + 1)
  }

  /** One more chunk under the last entry repeats its count once more. */
  lemma StscExpandExtend(es: seq<StscEntry>, n: int)
    requires es != [] && es[|es| - 1].firstChunk <= n + 1
    ensures StscExpand(es, n + 1) == StscExpand(es, n) + [es[|es| - 1].samplesPerChunk]
  {
    var e := es[|es| - 1];
    assert Repeat(e.samplesPerChunk, n + 1 - e.firstChunk + 1) ==
           Repeat(e.samplesPerChunk, n - e.firstChunk + 1) + [e.samplesPerChunk];
  }

  /** A new entry for chunk `n + 1` lists its count after the chunks before it. */
  lemma StscExpandAppend(es: seq<StscEntry>, n: int, count: int)
    ensures StscExpand(es + [StscEntry(n + 1, count, 1)], n + 1) == StscExpand(es, n) + [count]
  {
    assert (es + [StscEntry(n + 1, count, 1)])[..|es|] == es;
  }

  /** After the first `k` samples the stsc entries expand to the closed chunks' sizes, and the open count is the open chunk's. */
  ghost predicate ExpandsToChunkSizes(samples: seq<Sample>, k: nat)
    requires k <= |samples|
  {
    var st := StscPrefix(samples, k);
    StscExpand(st.entries, st.chunk - 1) == ChunkSizes(samples, k) && st.count == OpenCount(samples, k)
  }

  /**
   * `createStsc` is a run-length encoding of the chunk sizes: after the
   * first `k` samples the entries expand, chunk by chunk, to the sizes of
   * the chunks closed so far, and the open count is the open chunk's.
   */
  lemma {:induction false} StscPrefixExpands(samples: seq<Sample>, k: nat)
    requires k <= |samples|
    ensures ExpandsToChunkSizes(samples, k)
  {
    if k > 0 {
      StscPrefixExpands(samples, k - 1);
      StscPrefixExpandStep(samples, k);
    }
  }

  /** One sample more: closing its chunk adds the chunk's size, otherwise the open count grows. */
  lemma {:induction false} StscPrefixExpandStep(samples: seq<Sample>, k: nat)
    requires 0 < k <= |samples|
    requires ExpandsToChunkSizes(samples, k - 1)
    ensures ExpandsToChunkSizes(samples, k)
  {
    var st := StscPrefix(samples, k - 1);
    var count := st.count + 1;
    RunBeforeFollows(samples, k);
    assert count == RunBefore(samples, k - 1);
    if ChunkEnd(samples, k - 1) {
      StscCloseStep(samples, k, st, count);
    } else {
      assert StscPrefix(samples, k) == st.(count := count);
      assert ChunkSizes(samples, k) == ChunkSizes(samples, k - 1);
      assert OpenCount(samples, k) == count;
    }
  }

  /** The step of `StscPrefixExpandStep` at a chunk end. */
  lemma StscCloseStep(samples: seq<Sample>, k: nat, st: StscState, count: int)
    requires 0 < k <= |samples| && ChunkEnd(samples, k - 1)
    requires st == StscPrefix(samples, k - 1) && count == st.count + 1 && count == RunBefore(samples, k - 1)
    requires StscExpand(st.entries, st.chunk - 1) == ChunkSizes(samples, k - 1)
    ensures ExpandsToChunkSizes(samples, k)
  {
    StscLastEntry(samples, k - 1);
    var next := StscPrefix(samples, k);
    assert next == st.Close(count);
    assert ChunkSizes(samples, k) == ChunkSizes(samples, k - 1) + [count];
    assert OpenCount(samples, k) == 0;
    StscCloseExpands(st, count);
  }

  /** Closing a chunk of `count` samples lists `count` once more in the expansion. */
  lemma StscCloseExpands(st: StscState, count: int)
    requires count >= 1
    requires st.written >= 0 ==> st.entries != [] && st.written == st.entries[|st.entries| - 1].samplesPerChunk &&
                                 st.entries[|st.entries| - 1].firstChunk <= st.chunk - 1
    ensures StscExpand(st.Close(count).entries, st.Close(count).chunk - 1) == StscExpand(st.entries, st.chunk - 1) + [count]
  {
    if st.written != count {
      StscExpandAppend(st.entries, st.chunk - 1, count);
    } else {
      StscExpandExtend(st.entries, st.chunk - 1);
    }
  }

  /** The last count written is the last entry's, whose chunk is behind the counter; none is written before an entry. */
  lemma {:induction false} StscLastEntry(samples: seq<Sample>, k: nat)
    requires k <= |samples|
    ensures var st := StscPrefix(samples, k);
      st.count >= 0 &&
      (st.written >= 0 ==> st.entries != [] && st.written == st.entries[|st.entries| - 1].samplesPerChunk &&
                           st.entries[|st.entries| - 1].firstChunk <= st.chunk - 1)
  {
    StscWellFormed(samples, k);
  }

  /**
   * The two tables agree: stsc numbers exactly as many chunks as stco
   * lists offsets, its entries are ordered, and expanded over those
   * chunks they give each chunk's sample count, all of them positive
   * and adding up to the number of samples; with every sample ending at a
   * byte other than -1, stco lists one offset per chunk.
   */
  lemma StscMatchesStco(samples: seq<Sample>)
    requires forall i :: 0 <= i < |samples| ==> samples[i].End() != -1
    ensures var st := StscPrefix(samples, |samples|);
      var sizes := StscExpand(st.entries, st.chunk - 1);
      StscOrdered(st.entries) && st.chunk - 1 == |StcoPrefix(samples, |samples|).0| &&
      (samples != [] ==> st.entries != [] && st.entries[0].firstChunk == 1) &&
      sizes == ChunkSizes(samples, |samples|) && |sizes| == st.chunk - 1 && Sum(sizes) == |samples| &&
      (forall c :: 0 <= c < |sizes| ==> sizes[c] >= 1)
  {
    StscWellFormed(samples, |samples|);
    StscChunkCount(samples, |samples|);
    StcoIsChunkStarts(samples, |samples|);
    StscPrefixExpands(samples, |samples|);
    ChunkSizesCount(samples, |samples|);
    ChunkSizesLength(samples, |samples|);
  }

  /** One chunk size per chunk closed, which is one less than the stsc chunk counter. */
  lemma {:induction false} ChunkSizesLength(samples: seq<Sample>, k: nat)
    requires k <= |samples|
    ensures |ChunkSizes(samples, k)| == StscPrefix(samples, k).chunk - 1
  {
    if k > 0 {
      ChunkSizesLength(samples, k - 1);
    }
  }

  // ---------------------------------------------------------------------
  // The movie timescale
  // ---------------------------------------------------------------------

  /** `Math.gcd` of mp4parser: Euclid's algorithm while the second argument is positive. */
  function Gcd(a: nat, b: nat): nat
    decreases b
  {
    if b == 0 then a else Gcd(b, a % b)
  }

  /** `d` divides `n`. */
  ghost predicate Divides(d: int, n: int)
  {
    exists k :: n == d * k
  }

  lemma DividesCombination(d: int, x: int, y: int, q: int)
    requires Divides(d, x) && Divides(d, y)
    ensures Divides(d, x + q * y) && Divides(d, x - q * y)
  {
    var kx :| x == d * kx;
    var ky :| y == d * ky;
    assert x + q * y == d * (kx + q * ky);
    assert x - q * y == d * (kx - q * ky);
  }

  /** The gcd divides both arguments, and every common divisor divides it. */
  lemma {:induction false} GcdDivides(a: nat, b: nat)
    ensures Divides(Gcd(a, b), a) && Divides(Gcd(a, b), b)
    ensures forall d :: Divides(d, a) && Divides(d, b) ==> Divides(d, Gcd(a, b))
    decreases b
  {
    if b == 0 {
      assert a == a * 1 && 0 == a * 0;
    } else {
      var r := a % b;
      var q := a / b;
      assert a == r + q * b;
      GcdDivides(b, r);
      var g := Gcd(b, r);
      DividesCombination(g, r, b, q);
      forall d | Divides(d, a) && Divides(d, b)
        ensures Divides(d, g)
      {
        DividesCombination(d, a, b, q);
        assert r == a - q * b;
      }
    }
  }

  /** The gcd of every timescale in `ts`, seeded with `acc`. */
  function GcdAll(acc: nat, ts: seq<nat>): nat
    decreases |ts|
  {
    if ts == [] then acc else GcdAll(Gcd(ts[0], acc), ts[1..])
  }

  /** `getTimescale`: the first track's timescale, then its gcd with every track's; 0 without tracks. */
  method GetTimescale(ts: seq<nat>) returns (timescale: nat)
    ensures timescale == (if ts == [] then 0 else GcdAll(ts[0], ts))
  {
    timescale := 0;
    if ts != [] {
      timescale := ts[0];
    }
    ghost var seed := timescale;
    var i := 0;
    while i < |ts|
      invariant 0 <= i <= |ts|
      invariant GcdAll(timescale, ts[i..]) == GcdAll(seed, ts)
    {
      assert ts[i..][1..] == ts[i + 1..];
      timescale := Gcd(ts[i], timescale);
      i := i + 1;
    }
    assert ts[i..] == [];
  }

  /**
   * The movie timescale divides every track's timescale, and every common
   * divisor of them divides it: it is their greatest common divisor.
   */
  lemma {:induction false} GcdAllDivides(acc: nat, ts: seq<nat>)
    ensures Divides(GcdAll(acc, ts), acc)
    ensures forall i :: 0 <= i < |ts| ==> Divides(GcdAll(acc, ts), ts[i])
    ensures forall d :: Divides(d, acc) && (forall i :: 0 <= i < |ts| ==> Divides(d, ts[i])) ==> Divides(d, GcdAll(acc, ts))
    decreases |ts|
  {
    if ts == [] {
      assert acc == acc * 1;
    } else {
      var g := Gcd(ts[0], acc);
      GcdDivides(ts[0], acc);
      GcdAllDivides(g, ts[1..]);
      var r := GcdAll(g, ts[1..]);
      assert r == GcdAll(acc, ts);
      DividesTransitive(r, g, acc);
      DividesTransitive(r, g, ts[0]);
      forall i | 0 < i < |ts|
        ensures Divides(r, ts[i])
      {
        assert ts[i] == ts[1..][i - 1];
      }
      forall d | Divides(d, acc) && (forall i :: 0 <= i < |ts| ==> Divides(d, ts[i]))
        ensures Divides(d, r)
      {
        assert Divides(d, ts[0]);
        assert forall i :: 0 <= i < |ts[1..]| ==> Divides(d, ts[1..][i]) by {
          forall i | 0 <= i < |ts[1..]|
            ensures Divides(d, ts[1..][i])
          {
            assert ts[1..][i] == ts[i + 1];
          }
        }
      }
    }
  }

  lemma DividesTransitive(a: int, b: int, c: int)
    requires Divides(a, b) && Divides(b, c)
    ensures Divides(a, c)
  {
    var k1 :| b == a * k1;
    var k2 :| c == b * k2;
    assert c == a * (k1 * k2);
  }

  // ---------------------------------------------------------------------
  // The media-data box header
  // ---------------------------------------------------------------------

  const MDAT_HEADER_SIZE: int := 16
  const MDAT_FOURCC: seq<byte> := [0x6d, 0x64, 0x61, 0x74]
  const TWO_64: int := 0x1_0000_0000_0000_0000

  /** `isSmallBox`: the content plus the 16-byte header fits a 32-bit size. */
  predicate IsSmallBox(contentSize: int)
  {
    contentSize + MDAT_HEADER_SIZE < TWO_32
  }

  /**
   * `InterleaveChunkMdat.getBox`: the box size (header plus content) as a
   * 32-bit size and eight zero bytes, or the size 1 and a 64-bit large
   * size; the size test adds the header length a second time.
   */
  function MdatHeader(contentSize: int): (h: seq<byte>)
    ensures |h| == MDAT_HEADER_SIZE
  {
    var size := MDAT_HEADER_SIZE + contentSize;
    if IsSmallBox(size) then BigEndian(size, 4) + MDAT_FOURCC + seq(8, _ => 0)
    else BigEndian(1, 4) + MDAT_FOURCC + BigEndian(size, 8)
  }

  /**
   * The header takes the 32-bit size field exactly when the box size plus
   * the 16 header bytes once more stays below 2^32, so a box of between
   * 2^32 - 16 and 2^32 - 1 bytes gets the large form although its size
   * would fit the field.
   */
  lemma SmallBoxCountsHeaderTwice(contentSize: int)
    requires contentSize >= 0
    ensures MdatHeader(contentSize)[..4] == BigEndian(1, 4) <==> contentSize + 2 * MDAT_HEADER_SIZE >= TWO_32
    ensures MdatHeader(TWO_32 - 2 * MDAT_HEADER_SIZE)[..4] == BigEndian(1, 4)
  {
    var size := MDAT_HEADER_SIZE + contentSize;
    var h := MdatHeader(contentSize);
    Pow256Values();
    BigEndianExact(1, 4);
    if IsSmallBox(size) {
      assert h[..4] == BigEndian(size, 4);
      BigEndianExact(size, 4);
    } else {
      assert h[..4] == BigEndian(1, 4);
    }
    var big := TWO_32 - 2 * MDAT_HEADER_SIZE;
    assert !IsSmallBox(MDAT_HEADER_SIZE + big);
    assert MdatHeader(big)[..4] == BigEndian(1, 4);
  }

  /**
   * The header reads back as a box of type `mdat` whose size (the 32-bit
   * field, or the 64-bit large size when that field is 1) is the header
   * plus the content.
   */
  lemma MdatHeaderFields(contentSize: int)
    requires 0 <= contentSize && MDAT_HEADER_SIZE + contentSize < TWO_64
    ensures var h := MdatHeader(contentSize);
      h[4..8] == MDAT_FOURCC &&
      (FromBigEndian(h[..4]) == 1 ==> FromBigEndian(h[8..]) == MDAT_HEADER_SIZE + contentSize) &&
      (FromBigEndian(h[..4]) != 1 ==> FromBigEndian(h[..4]) == MDAT_HEADER_SIZE + contentSize)
  {
    var size := MDAT_HEADER_SIZE + contentSize;
    var h := MdatHeader(contentSize);
    Pow256Values();
    if IsSmallBox(size) {
      assert h[..4] == BigEndian(size, 4);
      BigEndianExact(size, 4);
    } else {
      assert h[..4] == BigEndian(1, 4);
      BigEndianExact(1, 4);
      assert h[8..] == BigEndian(size, 8);
      BigEndianExact(size, 8);
    }
    assert h[4..8] == MDAT_FOURCC;
  }
}
