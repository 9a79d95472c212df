# flutter_rtmppublisher, modelled in Dafny

This project models the publishing core of the flutter_rtmppublisher plugin:
the Android side, which captures camera and microphone, encodes H.264 and AAC
and pushes the result to an RTMP server (or records it to an MP4 file), and
the iOS side's connection and bitrate handling.

What is modelled, module by module:

- `Base`: the JVM integer conversions (`toInt()`, `toByte()`, truncating `/`
  and `%`), big-endian byte encodings and the read cursor of a
  `java.nio.ByteBuffer`.
- `SrsAllocator`: the byte-array pool of the yasea muxers (`SrsAllocator`),
  with its `Allocation` buffers.
- `FlvCodec`: the byte level of the FLV muxer (`SrsRawH264Stream`): the Annex-B
  start-code search and demux, the NALU length prefix, the AVC sequence
  header, video tags written into pooled allocations, and the AAC audio tag
  bytes (AudioSpecificConfig, ADTS header, FLV sound header).
- `FlvTags`: the tag-level rules of the FLV muxer as functions: the key-frame
  gate of the send queue, the send pump that holds frames back until both
  sequence headers are known, and what `writeVideoSample` and
  `writeAudioSample` produce for a given state.
- `FlvMuxer`: the `SrsFlvMuxer` object and its inner `SrsFlv` remuxer as
  classes, proved against `FlvTags`.
- `Mp4Tables`, `Mp4Track`, `Mp4Muxer`: the MP4 recorder (`SrsMp4Muxer`): the
  stts/stsc/stco sample tables, the timescale, the mdat header, one track's
  sample bookkeeping, and the recorder's state machine and frame cache.
- `VideoEncoder`: the parameter-set splitters of the camera's `VideoEncoder`
  (H.264 SPS/PPS from the codec-config buffer, H.265 VPS/SPS/PPS) and its
  start, stop, bitrate and output handling.
- `SrsEncoder`: the encoder front end of yasea (`SrsEncoder`): the queue-size
  gate that reports a weak network, colour-format choice, and the resolution
  and orientation settings.
- `Camera`: the RTMP retry loop and the streaming start/stop of the camera
  plugin object.
- `Connector`: the stream and record flags of `RtmpCameraConnector`, and where
  each encoded buffer is delivered.
- `IosStreaming`: the iOS publisher (`FlutterRTMPStreaming.swift`): splitting
  the URL into base URL and stream name, the retry backoff on failure, the
  bitrate adjustments on sufficient and insufficient bandwidth.
- `CameraUtils`: the CamcorderProfile fallback chain for a resolution
  preset, the preview size, and the largest capture size.
- `CameraPermissions`: the permission request and the listener that answers
  it once.

Calls into the platform (MediaCodec, the RTMP client, Camera2, the file
system, the permission checks) are parameters of the methods or recorded as
sequences of effects. All paths in the table below are relative to the
repository root.

## Model

| member | source | states |
|---|---|---|
| Base.ToInt32 | android/src/main/kotlin/com/whelksoft/yasea/SrsFlvMuxer.kt:716 | `Long.toInt()` keeps the value modulo 2^32 in the signed 32-bit range, and leaves a value already in range alone |
| Base.ToByte | android/src/main/kotlin/com/whelksoft/yasea/SrsAllocator.kt:36-44 | `toByte()` keeps the value modulo 256, and leaves a value already a byte alone |
| Base.TruncDiv | android/src/main/kotlin/com/whelksoft/yasea/SrsFlvMuxer.kt:716 | Kotlin division agrees with floor division on non-negative operands and never overshoots a non-negative dividend |
| Base.TruncRem | android/src/main/kotlin/com/whelksoft/camera_with_rtmp/Camera.kt:633 | Kotlin `%`: dividend = quotient * divisor + remainder, and the remainder has the dividend's sign and is smaller than the divisor |
| Base.BigEndianRoundTrip | android/src/main/kotlin/com/whelksoft/yasea/SrsFlvMuxer.kt:441-457 | reading back w big-endian bytes of x gives x modulo 256^w, which is what `putInt` / `putShort` puts on the wire |
| Base.BigEndianExact | android/src/main/kotlin/com/whelksoft/yasea/SrsFlvMuxer.kt:441-457 | for a value that fits w bytes the big-endian round trip is exact |
| Base.ByteBuffer.Get | android/src/main/kotlin/com/whelksoft/yasea/SrsFlvMuxer.kt:636-639 | a relative `get()` returns the byte at the position and advances it by one |
| Base.ByteBuffer.GetBytes | android/src/main/kotlin/com/whelksoft/yasea/SrsFlvMuxer.kt:763 | a bulk get returns the next n bytes and advances the position by n |
| SrsAllocator.LittleEndian32Reverses | android/src/main/kotlin/com/whelksoft/yasea/SrsAllocator.kt:40-45 | the four bytes `put(Int)` appends are the big-endian encoding in the opposite order (low byte first) |
| SrsAllocator.Allocation.constructor | android/src/main/kotlin/com/whelksoft/yasea/SrsAllocator.kt:52-55 | a new allocation has a fresh array of the requested length and logical size 0 |
| SrsAllocator.Allocation.AppendOffset | android/src/main/kotlin/com/whelksoft/yasea/SrsAllocator.kt:17-19 | the logical size grows by the offset; the bytes are untouched |
| SrsAllocator.Allocation.Clear | android/src/main/kotlin/com/whelksoft/yasea/SrsAllocator.kt:21-23 | the logical size drops to 0; the array is left as it was |
| SrsAllocator.Allocation.Put | android/src/main/kotlin/com/whelksoft/yasea/SrsAllocator.kt:25-27 | the byte lands at index size, nothing else changes, and the written contents gain exactly that byte |
| SrsAllocator.Allocation.PutAt | android/src/main/kotlin/com/whelksoft/yasea/SrsAllocator.kt:29-33 | the byte lands at pos, nothing else changes, and the size becomes the larger of the old size and pos + 1 |
| SrsAllocator.Allocation.PutShort | android/src/main/kotlin/com/whelksoft/yasea/SrsAllocator.kt:35-38 | the low byte is written and counted, then the `as Byte` cast of an Int always raises ClassCastException |
| SrsAllocator.Allocation.PutInt | android/src/main/kotlin/com/whelksoft/yasea/SrsAllocator.kt:40-45 | four bytes, low byte first, land at index size; the bytes before and after are unchanged and the size grows by 4 |
| SrsAllocator.Allocation.PutBytes | android/src/main/kotlin/com/whelksoft/yasea/SrsAllocator.kt:47-50 | the array is copied to index size, the rest of the buffer is unchanged, and the contents gain exactly those bytes |
| SrsAllocator.CopyInto | android/src/main/kotlin/com/whelksoft/yasea/SrsAllocator.kt:48 | `System.arraycopy` puts the source at the offset and changes nothing else in the destination |
| SrsAllocator.Pool.constructor | android/src/main/kotlin/com/whelksoft/yasea/SrsAllocator.kt:101-107 | initialAllocationCount + 10 slots, all filled with fresh empty allocations of the individual size |
| SrsAllocator.Pool.Allocate | android/src/main/kotlin/com/whelksoft/yasea/SrsAllocator.kt:62-72 | the first slot whose allocation is at least as large as requested is emptied and its allocation returned; otherwise a new allocation of max(size, individual size); an empty slot before that raises NullPointerException; pooled allocations stay empty, so a request for one byte or more always creates a new allocation |
| SrsAllocator.Pool.Release | android/src/main/kotlin/com/whelksoft/yasea/SrsAllocator.kt:74-87 | the allocation is cleared and stored in the first slot holding an empty allocation, else appended at the sentinel (the slot array doubling when full); an empty slot reached first raises NullPointerException; on a pool with no holes it always lands in slot 0 |
| SrsAllocator.Pool.Append | android/src/main/kotlin/com/whelksoft/yasea/SrsAllocator.kt:83-86 | the allocation goes at the old sentinel, which moves up by one; earlier slots are unchanged; the slot array doubles exactly when it was full |
| SrsAllocator.Doubled | android/src/main/kotlin/com/whelksoft/yasea/SrsAllocator.kt:84 | `Arrays.copyOf` to twice the length keeps every slot and pads with nulls |
| FlvCodec.NalUnitType | android/src/main/kotlin/com/whelksoft/yasea/SrsFlvMuxer.kt:433-439 | `and 0x1f` yields a NAL unit type in 0..31 |
| FlvCodec.StartCodeEnd | android/src/main/kotlin/com/whelksoft/yasea/SrsFlvMuxer.kt:611-620 | the index after a start code lies 3 or 4 bytes past its start |
| FlvCodec.FirstStartCode | android/src/main/kotlin/com/whelksoft/yasea/SrsFlvMuxer.kt:605-622 | the index found is a start code at or after `from` and below size - 4 with none before it; no index is found only when no start code begins in that range |
| FlvCodec.FullSearch | android/src/main/kotlin/com/whelksoft/yasea/SrsFlvMuxer.kt:602-624 | `searchAnnexb` matches exactly when a start code begins between the position and size - 5, and then counts the bytes from the position to the end of the first one (at least 3, ending inside the buffer); otherwise the count is 0 |
| FlvCodec.SearchAnnexb | android/src/main/kotlin/com/whelksoft/yasea/SrsFlvMuxer.kt:602-624 | the scanning loop returns what `FullSearch` specifies |
| FlvCodec.SearchStartcode | android/src/main/kotlin/com/whelksoft/yasea/SrsFlvMuxer.kt:585-600 | `searchStartcode` matches exactly when the buffer holds more than four bytes and a start code begins at absolute index 0, and then counts the start code's length |
| FlvCodec.SearchStartcodeReadsHead | android/src/main/kotlin/com/whelksoft/yasea/SrsFlvMuxer.kt:588-597 | the header check depends on the first four bytes only |
| FlvCodec.SearchStartcodeIsFirstMatch | android/src/main/kotlin/com/whelksoft/yasea/SrsFlvMuxer.kt:585-624 | when the header check matches, it agrees with the full scan from position 0 |
| FlvCodec.Demux | android/src/main/kotlin/com/whelksoft/yasea/SrsFlvMuxer.kt:626-647 | with a start code found (by the header check or the scan) the frame is the rest of the buffer after it and the position moves just past it; otherwise the frame is empty and the position stays |
| FlvCodec.DemuxAnnexb | android/src/main/kotlin/com/whelksoft/yasea/SrsFlvMuxer.kt:626-647 | skipping the start code one `get()` at a time gives the frame and position `Demux` specifies |
| FlvCodec.MuxNaluHeader | android/src/main/kotlin/com/whelksoft/yasea/SrsFlvMuxer.kt:441-457 | the NALU header is four bytes that read back big-endian as the frame size modulo 2^32 |
| FlvCodec.SequenceHeaderFrames | android/src/main/kotlin/com/whelksoft/yasea/SrsFlvMuxer.kt:459-543 | the sequence header is five frames, all readable, and fails with IndexOutOfBounds exactly when the SPS is shorter than four bytes (`sps[3]`) |
| FlvCodec.SequenceHeaderBytes | android/src/main/kotlin/com/whelksoft/yasea/SrsFlvMuxer.kt:484-542 | the header bytes are version 1, profile sps[1], compatibility 0, level sps[3], 0x03, then one SPS and one PPS, each behind a count of 1 and a big-endian 16-bit length |
| FlvCodec.ParseAvcConfigOf | android/src/main/kotlin/com/whelksoft/yasea/SrsFlvMuxer.kt:459-543 | a record laid out as the muxer lays it out is read back field by field |
| FlvCodec.ParsePpsListParts | android/src/main/kotlin/com/whelksoft/yasea/SrsFlvMuxer.kt:531-542 | a PPS part whose count is one and whose 16-bit length reads as the PPS length is read back exactly |
| FlvCodec.SequenceHeaderParses | android/src/main/kotlin/com/whelksoft/yasea/SrsFlvMuxer.kt:459-543 | round trip: an AVCDecoderConfigurationRecord reader recovers the SPS profile and level, 4-byte NALU lengths, the SPS and the PPS from the muxed header, whenever both fit the 16-bit length fields |
| FlvCodec.FramesBytes | android/src/main/kotlin/com/whelksoft/yasea/SrsFlvMuxer.kt:577-581 | the concatenated frame bytes are as long as the frame sizes add up to |
| FlvCodec.FramesBytesStep | android/src/main/kotlin/com/whelksoft/yasea/SrsFlvMuxer.kt:577-581 | copying one more frame appends exactly its bytes and its size |
| FlvCodec.FramesBytesUnfold5 | android/src/main/kotlin/com/whelksoft/yasea/SrsFlvMuxer.kt:504-542 | the five sequence-header frames concatenate in list order |
| FlvCodec.VideoTagHeader | android/src/main/kotlin/com/whelksoft/yasea/SrsFlvMuxer.kt:562-574 | the video tag header is five bytes; what they hold is stated by `FlvCodec.HeaderComposition` and `FlvCodec.VideoTagFields` |
| FlvCodec.VideoTag | android/src/main/kotlin/com/whelksoft/yasea/SrsFlvMuxer.kt:545-583 | a video tag is five header bytes plus the frames' sizes; its fields are stated by `FlvCodec.VideoTagFields` |
| FlvCodec.VideoTagFields | android/src/main/kotlin/com/whelksoft/yasea/SrsFlvMuxer.kt:545-583 | reading a video tag back gives the frame type and codec 7 in the first byte, the packet type, the composition time pts - dts modulo 2^24, and the frames' bytes in order |
| FlvCodec.HeaderComposition | android/src/main/kotlin/com/whelksoft/yasea/SrsFlvMuxer.kt:571-574 | the three `shr`/`toByte()` puts of the composition time read back as it modulo 2^24 |
| FlvCodec.NaluTagBody | android/src/main/kotlin/com/whelksoft/yasea/SrsFlvMuxer.kt:863-867 | a picture's tag body is a 4-byte length followed by the NAL unit, and the length equals the number of bytes after it |
| FlvCodec.TagSize | android/src/main/kotlin/com/whelksoft/yasea/SrsFlvMuxer.kt:552-555 | the size loop adds the frame sizes to 5 |
| FlvCodec.PutVideoTagHeader | android/src/main/kotlin/com/whelksoft/yasea/SrsFlvMuxer.kt:562-574 | the five header puts append exactly the video tag header to the allocation |
| FlvCodec.PutFrames | android/src/main/kotlin/com/whelksoft/yasea/SrsFlvMuxer.kt:577-581 | the copy loop appends every frame's bytes in list order and grows the size by their sum |
| FlvCodec.AllocateNew | android/src/main/kotlin/com/whelksoft/yasea/SrsFlvMuxer.kt:556 | on the muxer's pool, whose pooled allocations are all empty, `allocate` returns a fresh empty allocation of max(size, individual size) and leaves the slots alone |
| FlvCodec.MuxFlvTag | android/src/main/kotlin/com/whelksoft/yasea/SrsFlvMuxer.kt:545-583 | `muxFlvTag` returns a fresh allocation whose written contents are exactly `VideoTag` of its inputs, and keeps the pool's invariants |
| FlvCodec.SizeSumPrefix | android/src/main/kotlin/com/whelksoft/yasea/SrsFlvMuxer.kt:553-555 | a prefix of the frames never adds up to more than all of them |
| FlvCodec.SoundRate | android/src/main/kotlin/com/whelksoft/yasea/SrsFlvMuxer.kt:772-779 | the FLV SoundRate code is in 0..3; which rates it names exactly is `FlvCodec.SoundRateExact` |
| FlvCodec.SoundRateExact | android/src/main/kotlin/com/whelksoft/yasea/SrsFlvMuxer.kt:772-779 | the code names the real rate exactly for 5512, 11025, 22050 and 44100 Hz, and for no other rate |
| FlvCodec.SamplingFrequencyIndex | android/src/main/kotlin/com/whelksoft/yasea/SrsFlvMuxer.kt:729-738 | the sampling index is one of the 13 defined by ISO/IEC 14496-3; which rates it names exactly is `FlvCodec.SamplingIndexExact` |
| FlvCodec.SamplingIndexExact | android/src/main/kotlin/com/whelksoft/yasea/SrsFlvMuxer.kt:729-738 | the index names the real rate exactly for 44100, 32000, 22050, 16000 and 11025 Hz; every other rate (48000 Hz, say) is labelled 44100 Hz |
| FlvCodec.ChannelConfiguration | android/src/main/kotlin/com/whelksoft/yasea/SrsFlvMuxer.kt:745-748 | the channel configuration is 1 or 2 |
| FlvCodec.AudioSpecificConfig | android/src/main/kotlin/com/whelksoft/yasea/SrsFlvMuxer.kt:725-757 | the AudioSpecificConfig is two bytes; its bit fields are stated by `FlvCodec.AudioSpecificConfigFields` |
| FlvCodec.AudioSpecificConfigFields | android/src/main/kotlin/com/whelksoft/yasea/SrsFlvMuxer.kt:725-757 | unpacking the two bytes gives back the top five bits of the first AAC byte, the sampling index, the channel configuration and three zero bits |
| FlvCodec.AudioTagHeaderFields | android/src/main/kotlin/com/whelksoft/yasea/SrsFlvMuxer.kt:766-788 | the audio tag's first byte reads back as SoundFormat 10 (AAC), the SoundRate code, 16-bit samples, and stereo exactly for two channels |
| FlvCodec.AdtsHeader | android/src/main/kotlin/com/whelksoft/yasea/SrsFlvMuxer.kt:793-827 | the ADTS header is seven bytes; its fields are stated by `FlvCodec.AdtsHeaderFields` |
| FlvCodec.AdtsHeaderFields | android/src/main/kotlin/com/whelksoft/yasea/SrsFlvMuxer.kt:793-827 | the ADTS fields read back as the 0xFFF sync word, no CRC, profile AAC LC, sampling index 4 and two channels whatever the stream, and a 13-bit frame length of array length - 2 modulo 2^13 |
| FlvCodec.ThirteenBits | android/src/main/kotlin/com/whelksoft/yasea/SrsFlvMuxer.kt:819-821 | the three masked pieces of the frame length add back up to it modulo 2^13 |
| FlvCodec.AudioTag | android/src/main/kotlin/com/whelksoft/yasea/SrsFlvMuxer.kt:715-791 | a configured stream's tag is packet type 1 followed by the sample; the first tag after a reset is 11 bytes of packet type 0; both start with the FLV audio header |
| FlvTags.TagKinds | android/src/main/kotlin/com/whelksoft/yasea/SrsFlvMuxer.kt:395-420 | `isVideo`, `isAudio`, `isKeyFrame` and `isSequenceHeader` on the tags the muxer makes: no tag is both video and audio and a key frame is video; the AVC sequence header is a video key frame and a sequence header; a picture is video, a key frame exactly for an IDR slice, and never a sequence header; an audio tag is never a key frame and is a sequence header exactly for the first sample |
| FlvTags.Admit | android/src/main/kotlin/com/whelksoft/yasea/SrsFlvMuxer.kt:916-945 | a tag is queued only by a started muxer and only if it is audio or video; while a key frame is awaited a queued video tag is a key frame; audio is queued exactly when started and leaves the flag alone; the flag stays set exactly when it was set and the tag is not a key frame (a key frame clears it even when a stopped muxer drops it) |
| FlvTags.GateStartsWithKeyFrame | android/src/main/kotlin/com/whelksoft/yasea/SrsFlvMuxer.kt:923-931 | from a fresh start the first video tag that gets queued is a key frame |
| FlvTags.GateOpenKeepsAll | android/src/main/kotlin/com/whelksoft/yasea/SrsFlvMuxer.kt:929-934 | once the key frame went through, every audio and video tag is queued, in order |
| FlvTags.GateState.Offer | android/src/main/kotlin/com/whelksoft/yasea/SrsFlvMuxer.kt:916-945 | offering one tag keeps the queue invariant: nothing queued while stopped, no video queued while a key frame is awaited |
| FlvTags.OfferEachQueuesGate | android/src/main/kotlin/com/whelksoft/yasea/SrsFlvMuxer.kt:916-945 | in a started muxer, offering tags one by one appends exactly what the key-frame gate lets through |
| FlvTags.SentHeaderGrows | android/src/main/kotlin/com/whelksoft/yasea/SrsFlvMuxer.kt:112-129 | a sequence header once sent stays sent as more tags go out |
| FlvTags.PumpOneKeepsHeadersFirst | android/src/main/kotlin/com/whelksoft/yasea/SrsFlvMuxer.kt:113-128 | one polled tag keeps the invariant that every data tag sent follows a sent sequence header of its kind |
| FlvTags.PumpKeepsHeadersFirst | android/src/main/kotlin/com/whelksoft/yasea/SrsFlvMuxer.kt:111-129 | draining the queue keeps every sent data tag behind a sent sequence header of its kind |
| FlvTags.PumpSendsAllOnceHeadersKnown | android/src/main/kotlin/com/whelksoft/yasea/SrsFlvMuxer.kt:111-129 | with both sequence headers remembered, the drain sends every audio and video tag in queue order and keeps them remembered |
| FlvTags.PumpStep | android/src/main/kotlin/com/whelksoft/yasea/SrsFlvMuxer.kt:112-113 | draining is polling the head, then draining the rest |
| FlvTags.ClassifyVideo | android/src/main/kotlin/com/whelksoft/yasea/SrsFlvMuxer.kt:829-862 | a buffer shorter than four bytes is ignored; a picture is a key frame exactly for an IDR NAL and an inter frame exactly for a non-IDR NAL; a parameter-set frame is the rest of the buffer from an SPS or PPS NAL |
| FlvTags.ParameterSetsSplit | android/src/main/kotlin/com/whelksoft/yasea/SrsFlvMuxer.kt:834-858 | an encoder buffer `00 00 00 01 SPS 00 00 00 01 PPS` without inner start codes splits into exactly that SPS and PPS; the PPS is stored exactly when it differs from the stored one |
| FlvTags.FirstStartCodeSkips | android/src/main/kotlin/com/whelksoft/yasea/SrsFlvMuxer.kt:605-622 | the scan finds a start code when none comes before it |
| FlvTags.FirstStartCodeNone | android/src/main/kotlin/com/whelksoft/yasea/SrsFlvMuxer.kt:605-622 | the scan finds nothing in a range without a start code |
| FlvTags.SpsPpsWritten | android/src/main/kotlin/com/whelksoft/yasea/SrsFlvMuxer.kt:871-902 | when a header is due the sequence header is offered and the flags settle so that no second one is due; otherwise nothing changes; it raises exactly when a header is due and the SPS is shorter than four bytes |
| FlvTags.ParameterSetsStored | android/src/main/kotlin/com/whelksoft/yasea/SrsFlvMuxer.kt:838-858 | the stores keep the remuxer invariant and the sent flag; a stored PPS leaves both sets known and the PPS marked changed; otherwise the PPS and its flag are untouched |
| FlvTags.PpsStored | android/src/main/kotlin/com/whelksoft/yasea/SrsFlvMuxer.kt:848-858 | a PPS is stored, changing only the PPS and its flag, or nothing changes |
| FlvTags.VideoWrittenAfterHeader | android/src/main/kotlin/com/whelksoft/yasea/SrsFlvMuxer.kt:829-914 | `writeVideoSample` keeps the invariant, offers only video tags, and offers a picture only after a sequence header went out, changing nothing then |
| FlvTags.SequenceHeaderTagFields | android/src/main/kotlin/com/whelksoft/yasea/SrsFlvMuxer.kt:871-902 | the sequence-header tag reads back as a key-frame AVC sequence header carrying the AVCDecoderConfigurationRecord of exactly the stored SPS and PPS |
| FlvTags.PictureTagFields | android/src/main/kotlin/com/whelksoft/yasea/SrsFlvMuxer.kt:863-867 | a picture tag reads back as an AVC NALU of its frame type with composition time 0, and its body is the NAL unit behind its 4-byte length |
| FlvTags.AudioWrittenConfigFirst | android/src/main/kotlin/com/whelksoft/yasea/SrsFlvMuxer.kt:715-791 | the first audio tag after a reset is the AAC sequence header carrying the AudioSpecificConfig of the sample's first byte; every later one is raw AAC carrying the sample unchanged |
| FlvMuxer.MuxVideoTag | android/src/main/kotlin/com/whelksoft/yasea/SrsFlvMuxer.kt:545-583 | the tag the video writers queue is exactly `VideoTag` of their frames, and both pools keep their invariants |
| FlvMuxer.QueueVideoTag | android/src/main/kotlin/com/whelksoft/yasea/SrsFlvMuxer.kt:891-894 | muxing then `writeRtmpPacket` offers exactly that video tag to the key-frame gate and leaves the worker alone |
| FlvMuxer.MuxAudioTag | android/src/main/kotlin/com/whelksoft/yasea/SrsFlvMuxer.kt:716-790 | the audio tag is built in a fresh allocation of the audio pool; it raises exactly the fault `AudioFault` names, and otherwise holds `AudioFrame`'s bytes |
| FlvMuxer.WriteAdtsHeader | android/src/main/kotlin/com/whelksoft/yasea/SrsFlvMuxer.kt:793-827 | the seven ADTS bytes for the array's length land at the offset, and nothing else in the array changes |
| FlvMuxer.FillAudioTag | android/src/main/kotlin/com/whelksoft/yasea/SrsFlvMuxer.kt:718-789 | the allocation's contents become the audio tag `AudioFrame` specifies, or the method raises what `AudioFault` names |
| FlvMuxer.Muxer.constructor | android/src/main/kotlin/com/whelksoft/yasea/SrsFlvMuxer.kt:20-31 | a new muxer is not started, waits for a key frame, has an empty queue, no remembered sequence headers, two pools with no allocation out and a reset remuxer |
| FlvMuxer.Muxer.AddTrack | android/src/main/kotlin/com/whelksoft/yasea/SrsFlvMuxer.kt:53-61 | the video codec's format yields track 100 and leaves the audio settings alone; any other format yields track 101 and sets the audio channels and rate |
| FlvMuxer.Muxer.Start | android/src/main/kotlin/com/whelksoft/yasea/SrsFlvMuxer.kt:74-83 | start marks the muxer started; `connect` forgets both sequence headers and the connection is up exactly when connecting and publishing succeeded |
| FlvMuxer.Muxer.Stop | android/src/main/kotlin/com/whelksoft/yasea/SrsFlvMuxer.kt:147-169 | stop leaves the muxer not started, waiting for a key frame, with an empty queue, a reset remuxer, no connection and no remembered sequence headers |
| FlvMuxer.Muxer.SendFlvTag | android/src/main/kotlin/com/whelksoft/yasea/SrsFlvMuxer.kt:85-100 | a video or audio tag is handed to the publisher; anything else is not |
| FlvMuxer.Muxer.PollOne | android/src/main/kotlin/com/whelksoft/yasea/SrsFlvMuxer.kt:113-128 | polling removes the head of the queue and sends it as `PumpOne` specifies |
| FlvMuxer.Muxer.Drain | android/src/main/kotlin/com/whelksoft/yasea/SrsFlvMuxer.kt:108-129 | with a connection the worker empties the queue and sends as `Pump` specifies; without one nothing is drained |
| FlvMuxer.Muxer.FlvTagCacheAdd | android/src/main/kotlin/com/whelksoft/yasea/SrsFlvMuxer.kt:937-945 | only a started muxer queues the tag, counting video tags; a stopped one drops it |
| FlvMuxer.Muxer.WriteRtmpPacket | android/src/main/kotlin/com/whelksoft/yasea/SrsFlvMuxer.kt:916-935 | the packet is offered to the key-frame gate exactly as `GateState.Offer` specifies |
| FlvMuxer.Muxer.WriteSampleData | android/src/main/kotlin/com/whelksoft/yasea/SrsFlvMuxer.kt:177-188 | track 100 goes through `writeVideoSample` and any other track through `writeAudioSample`, each with the state change, fault and queued tag that `VideoWritten` or `AudioWritten` give |
| FlvMuxer.Remuxer.constructor | android/src/main/kotlin/com/whelksoft/yasea/SrsFlvMuxer.kt:675-703 | a new remuxer holds no parameter sets and all its flags are clear |
| FlvMuxer.Remuxer.SetAudioTrack | android/src/main/kotlin/com/whelksoft/yasea/SrsFlvMuxer.kt:709-713 | the channel count and sample rate are set, nothing else changes |
| FlvMuxer.Remuxer.Reset | android/src/main/kotlin/com/whelksoft/yasea/SrsFlvMuxer.kt:690-703 | the four flags are cleared and the stored parameter sets keep their length but become zeros |
| FlvMuxer.Remuxer.WriteH264IpbFrame | android/src/main/kotlin/com/whelksoft/yasea/SrsFlvMuxer.kt:904-914 | a picture is offered as an AVC NALU tag exactly when a sequence header was sent; otherwise nothing is offered |
| FlvMuxer.Remuxer.WriteH264SpsPps | android/src/main/kotlin/com/whelksoft/yasea/SrsFlvMuxer.kt:871-902 | the header is written and the flags settle exactly as `SpsPpsWritten` specifies |
| FlvMuxer.Remuxer.StoreParameterSets | android/src/main/kotlin/com/whelksoft/yasea/SrsFlvMuxer.kt:839-858 | the two further start-code searches and the stores do what `ParameterSetsStored` specifies |
| FlvMuxer.Remuxer.StorePps | android/src/main/kotlin/com/whelksoft/yasea/SrsFlvMuxer.kt:848-858 | the PPS store does what `PpsStored` specifies |
| FlvMuxer.Remuxer.WriteParameterSets | android/src/main/kotlin/com/whelksoft/yasea/SrsFlvMuxer.kt:838-859 | the SPS/PPS branch stores the sets and writes the header when a new PPS is stored, as `ParameterSetsWritten` specifies |
| FlvMuxer.Remuxer.WriteVideoSample | android/src/main/kotlin/com/whelksoft/yasea/SrsFlvMuxer.kt:829-869 | `writeVideoSample` changes the state, raises and queues exactly as `VideoWritten` specifies (properties in `FlvTags.VideoWrittenAfterHeader`) |
| FlvMuxer.Remuxer.WriteAudioSample | android/src/main/kotlin/com/whelksoft/yasea/SrsFlvMuxer.kt:715-791 | `writeAudioSample` changes the state, raises and queues exactly as `AudioWritten` specifies (properties in `FlvTags.AudioWrittenConfigFirst`) |
| FlvMuxer.Blanked | android/src/main/kotlin/com/whelksoft/yasea/SrsFlvMuxer.kt:695-701 | `Arrays.fill` keeps a stored set's presence and length and makes every byte zero |
| Mp4Tables.CreateStts | android/src/main/kotlin/com/whelksoft/yasea/SrsMp4Muxer.kt:851-865 | the loop builds the stts entries `SttsPrefix` specifies for all durations (their meaning is `Mp4Tables.SttsRoundTrip`) |
| Mp4Tables.ExpandSnoc | android/src/main/kotlin/com/whelksoft/yasea/SrsMp4Muxer.kt:858-859 | opening a new entry appends its delta count times to the expansion |
| Mp4Tables.ExpandExtendLast | android/src/main/kotlin/com/whelksoft/yasea/SrsMp4Muxer.kt:855-856 | counting one more sample in the last entry appends its delta to the expansion |
| Mp4Tables.SttsPrefixCompact | android/src/main/kotlin/com/whelksoft/yasea/SrsMp4Muxer.kt:851-865 | every stts entry counts at least one sample, neighbouring entries have different deltas, and the last entry is for the last duration read |
| Mp4Tables.SttsRoundTrip | android/src/main/kotlin/com/whelksoft/yasea/SrsMp4Muxer.kt:851-865 | the stts table is a run-length encoding of the sample durations: expanding it gives back exactly the durations, in order |
| Mp4Tables.CreateStco | android/src/main/kotlin/com/whelksoft/yasea/SrsMp4Muxer.kt:917-937 | the loop builds the chunk offsets `StcoPrefix` specifies (their meaning is `Mp4Tables.StcoIsChunkStarts`) |
| Mp4Tables.StcoIsChunkStarts | android/src/main/kotlin/com/whelksoft/yasea/SrsMp4Muxer.kt:917-937 | when no sample ends at byte -1, the chunk offsets are exactly the offsets of the samples that do not start where the previous one ended (the first included) |
| Mp4Tables.CreateStsc | android/src/main/kotlin/com/whelksoft/yasea/SrsMp4Muxer.kt:876-909 | the loop builds the stsc entries `StscPrefix` specifies (their meaning is `Mp4Tables.StscMatchesStco`) |
| Mp4Tables.StscAppendOrdered | android/src/main/kotlin/com/whelksoft/yasea/SrsMp4Muxer.kt:899-903 | an entry for a later chunk with a different count keeps the stsc entries ordered |
| Mp4Tables.StscWellFormed | android/src/main/kotlin/com/whelksoft/yasea/SrsMp4Muxer.kt:876-909 | the entries stay ordered (chunk numbers from 1, strictly increasing, positive counts, neighbouring counts different), and once a chunk has closed there is an entry |
| Mp4Tables.StscChunkCount | android/src/main/kotlin/com/whelksoft/yasea/SrsMp4Muxer.kt:884-907 | the chunk counter is one more than the number of chunks closed so far, which is the number of chunks opened |
| Mp4Tables.StscMatchesStco | android/src/main/kotlin/com/whelksoft/yasea/SrsMp4Muxer.kt:876-937 | stsc and stco agree: stsc numbers exactly as many chunks as stco lists offsets, its entries are ordered, and a non-empty track's first entry is for chunk 1; expanded chunk by chunk, the entries give each chunk's sample count (`ChunkSizes`, counted independently as the length of each contiguous run), every count is positive, and the counts add up to the number of samples |
| Mp4Tables.RunBefore | android/src/main/kotlin/com/whelksoft/yasea/SrsMp4Muxer.kt:880-900 | the run of contiguous samples ending at a sample holds between one sample and all of those up to it |
| Mp4Tables.ChunkSizesCount | android/src/main/kotlin/com/whelksoft/yasea/SrsMp4Muxer.kt:880-900 | every sample lies in exactly one chunk: the closed chunks' sizes plus the open chunk's samples are all the samples seen, and every closed chunk holds at least one |
| Mp4Tables.RunBeforeFollows | android/src/main/kotlin/com/whelksoft/yasea/SrsMp4Muxer.kt:884-889 | a sample's run is one longer than the samples left open before it, as `lastSampleCount++` counts |
| Mp4Tables.StscExpandExtend | android/src/main/kotlin/com/whelksoft/yasea/SrsMp4Muxer.kt:899-906 | a chunk closed with the count last written (no entry added) repeats the last entry's count once more |
| Mp4Tables.StscExpandAppend | android/src/main/kotlin/com/whelksoft/yasea/SrsMp4Muxer.kt:899-905 | a new entry for the next chunk lists its count right after the chunks before it |
| Mp4Tables.StscCloseExpands | android/src/main/kotlin/com/whelksoft/yasea/SrsMp4Muxer.kt:899-906 | closing a chunk, whether or not an entry is written, adds exactly that chunk's count to the expansion |
| Mp4Tables.StscPrefixExpands | android/src/main/kotlin/com/whelksoft/yasea/SrsMp4Muxer.kt:876-909 | after any number of samples the stsc entries are a run-length encoding of the closed chunks' sizes, and the open count is the open chunk's samples |
| Mp4Tables.StscPrefixExpandStep | android/src/main/kotlin/com/whelksoft/yasea/SrsMp4Muxer.kt:884-906 | one more sample keeps that encoding: a chunk end adds its size, otherwise the open count grows by one |
| Mp4Tables.StscCloseStep | android/src/main/kotlin/com/whelksoft/yasea/SrsMp4Muxer.kt:899-906 | the chunk-end case of that step |
| Mp4Tables.StscLastEntry | android/src/main/kotlin/com/whelksoft/yasea/SrsMp4Muxer.kt:899-903 | `previousWritedChunkCount` is the last entry's count, and that entry's chunk is behind the chunk counter |
| Mp4Tables.ChunkSizesLength | android/src/main/kotlin/com/whelksoft/yasea/SrsMp4Muxer.kt:876-909 | one chunk size per chunk closed, one less than `lastChunkNumber` |
| Mp4Tables.DividesCombination | android/src/main/kotlin/com/whelksoft/yasea/SrsMp4Muxer.kt:757 | a common divisor of two numbers divides their integer combinations |
| Mp4Tables.GcdDivides | android/src/main/kotlin/com/whelksoft/yasea/SrsMp4Muxer.kt:757 | Euclid's `gcd` divides both arguments and every common divisor divides it |
| Mp4Tables.GetTimescale | android/src/main/kotlin/com/whelksoft/yasea/SrsMp4Muxer.kt:751-760 | the loop returns 0 without tracks, else the gcd of the first track's timescale with every track's (its meaning is `Mp4Tables.GcdAllDivides`) |
| Mp4Tables.GcdAllDivides | android/src/main/kotlin/com/whelksoft/yasea/SrsMp4Muxer.kt:751-760 | the movie timescale divides every track's timescale and every common divisor of them divides it: it is their greatest common divisor |
| Mp4Tables.DividesTransitive | android/src/main/kotlin/com/whelksoft/yasea/SrsMp4Muxer.kt:756-758 | divisibility is transitive |
| Mp4Tables.SmallBoxCountsHeaderTwice | android/src/main/kotlin/com/whelksoft/yasea/SrsMp4Muxer.kt:611-628 | `isSmallBox` is asked about the box size, to which it adds the header length again: the 32-bit size field is used exactly when content plus twice the header stays below 2^32, so a box of 2^32 - 16 to 2^32 - 1 bytes gets the large form |
| Mp4Tables.MdatHeader | android/src/main/kotlin/com/whelksoft/yasea/SrsMp4Muxer.kt:615-637 | the mdat header is 16 bytes (its fields are `Mp4Tables.MdatHeaderFields`) |
| Mp4Tables.MdatHeaderFields | android/src/main/kotlin/com/whelksoft/yasea/SrsMp4Muxer.kt:611-637 | the header reads back as a box of type `mdat` whose size (the 32-bit field, or the 64-bit large size when that field is 1) is the header plus the content |
| Mp4Track.ScaledDelta | android/src/main/kotlin/com/whelksoft/yasea/SrsMp4Muxer.kt:456 | the step in microseconds is converted to the timescale rounded half up: the result is the unique non-negative d with d * 10^6 <= delta * timescale + 500000 < (d + 1) * 10^6 |
| Mp4Track.MulNonNegative | android/src/main/kotlin/com/whelksoft/yasea/SrsMp4Muxer.kt:456 | a product of non-negative numbers is non-negative |
| Mp4Track.Initial | android/src/main/kotlin/com/whelksoft/yasea/SrsMp4Muxer.kt:483-558 | a new track, video at 90 kHz with a seed duration of 3015 and a sync list, or audio at its sample rate with 1024 and none, satisfies the track invariant |
| Mp4Tables.SumSnoc | android/src/main/kotlin/com/whelksoft/yasea/SrsMp4Muxer.kt:460 | appending a duration adds it to the sum |
| Mp4Track.SumInsertBeforeLast | android/src/main/kotlin/com/whelksoft/yasea/SrsMp4Muxer.kt:459-460 | inserting a duration before the last one adds it to the sum |
| Mp4Track.AddedKeepsOk | android/src/main/kotlin/com/whelksoft/yasea/SrsMp4Muxer.kt:446-463 | `addSample` keeps the track invariant; a sample presented before the last one is ignored; otherwise the sample is appended, a sync video sample is numbered with its 1-based index, and every sample but the first adds its scaled step to the duration and to the list just before the seed |
| Mp4Track.SyncTableShape | android/src/main/kotlin/com/whelksoft/yasea/SrsMp4Muxer.kt:472-482 | the sync table is null for audio and for video without sync samples; otherwise it is non-empty, strictly increasing and within the sample numbers |
| Mp4Track.Track.constructor | android/src/main/kotlin/com/whelksoft/yasea/SrsMp4Muxer.kt:483-558 | a new track's state is `Initial` for its kind and sample rate |
| Mp4Track.Track.AddSample | android/src/main/kotlin/com/whelksoft/yasea/SrsMp4Muxer.kt:446-463 | `addSample` moves the track to the state `Added` specifies (properties in `Mp4Track.AddedKeepsOk`) |
| Mp4Track.Track.GetSyncSamples | android/src/main/kotlin/com/whelksoft/yasea/SrsMp4Muxer.kt:472-482 | the copied sync-sample numbers, or null when there are none; when present, non-empty and strictly increasing |
| Mp4Muxer.StartsWith | android/src/main/kotlin/com/whelksoft/yasea/SrsMp4Muxer.kt:363-383 | a prefix found from scan index p covers at least the bytes up to p + 3 and leaves a byte after it |
| Mp4Muxer.StartsWithFrom | android/src/main/kotlin/com/whelksoft/yasea/SrsMp4Muxer.kt:363-383 | the scan from p reports only genuine start-code prefixes, and reports every prefix that ends beyond p |
| Mp4Muxer.StartsWithPrefix | android/src/main/kotlin/com/whelksoft/yasea/SrsMp4Muxer.kt:363-383 | `srs_avc_startswith_annexb` at a position answers a length n exactly when zero bytes ending in `00 00 01` start there and run n bytes, with a byte after them |
| Mp4Muxer.SearchAnnexb | android/src/main/kotlin/com/whelksoft/yasea/SrsMp4Muxer.kt:363-383 | the loop matches and counts exactly as `StartsWith` specifies, with a count of 0 when there is no match |
| Mp4Muxer.FrameEnd | android/src/main/kotlin/com/whelksoft/yasea/SrsMp4Muxer.kt:403-411 | a frame ends at or after its start and within the buffer |
| Mp4Muxer.AnnexbDemuxFrame | android/src/main/kotlin/com/whelksoft/yasea/SrsMp4Muxer.kt:384-415 | each demux step inside the buffer moves forward; the frame follows the start-code prefix at the position (or starts there when there is none, which is reported exactly then); no prefix begins inside the frame, and one begins where it ends unless that is the end of the buffer |
| Mp4Muxer.FrameEndScan | android/src/main/kotlin/com/whelksoft/yasea/SrsMp4Muxer.kt:403-411 | the frame-end scan stops at the first start-code prefix, or at the end of the buffer |
| Mp4Muxer.DemuxAnnexb | android/src/main/kotlin/com/whelksoft/yasea/SrsMp4Muxer.kt:384-415 | `annexb_demux` returns the frame and moves the position as `AnnexbDemux` specifies (properties in `Mp4Muxer.AnnexbDemuxFrame`) |
| Mp4Muxer.TakeKeepsOk | android/src/main/kotlin/com/whelksoft/yasea/SrsMp4Muxer.kt:259-279 | storing a demuxed SPS or PPS keeps the remembered sets well formed: each list holds exactly its remembered set, a NAL of the right type |
| Mp4Muxer.ScanKeepsOk | android/src/main/kotlin/com/whelksoft/yasea/SrsMp4Muxer.kt:258-280 | scanning a buffer keeps the parameter sets well formed, keeps the handler events already sent, and adds only reports of a missing start code |
| Mp4Muxer.OfferEachIdle | android/src/main/kotlin/com/whelksoft/yasea/SrsMp4Muxer.kt:298-309 | when not recording, or paused, no frame is queued and no flag moves |
| Mp4Muxer.OfferEachKeyFirst | android/src/main/kotlin/com/whelksoft/yasea/SrsMp4Muxer.kt:299-304 | while a key frame is awaited, the first frame queued is a key frame and what was queued before stays in front |
| Mp4Muxer.OfferEachGrows | android/src/main/kotlin/com/whelksoft/yasea/SrsMp4Muxer.kt:292-310 | `writeFrameByte` only appends to the queue |
| Mp4Muxer.OfferEachOpen | android/src/main/kotlin/com/whelksoft/yasea/SrsMp4Muxer.kt:305-308 | once a key frame went in, every frame is queued in order while recording and not paused |
| Mp4Muxer.AudioOnlyQueuesNothing | android/src/main/kotlin/com/whelksoft/yasea/SrsMp4Muxer.kt:284-310 | audio is never a key frame, so a recording still waiting for its first key frame queues nothing from audio alone |
| Mp4Muxer.FirstAudioDropped | android/src/main/kotlin/com/whelksoft/yasea/SrsMp4Muxer.kt:284-290 | the first audio buffer after construction or stop only marks the configuration as seen; later ones are queued as non-key frames exactly when the gate is open |
| Mp4Muxer.VideoOfferedKeepsOk | android/src/main/kotlin/com/whelksoft/yasea/SrsMp4Muxer.kt:253-282 | `writeVideoSample` keeps the recorder invariant; it raises exactly for a buffer of at most four bytes; a queued frame is the whole buffer, an IDR or non-IDR picture read at byte 4, key exactly when IDR |
| Mp4Muxer.Recorder.constructor | android/src/main/kotlin/com/whelksoft/yasea/SrsMp4Muxer.kt:33-55 | a new recorder has no formats, is not recording or paused, waits for a key frame, and has an empty queue and no parameter sets |
| Mp4Muxer.Recorder.AddTrack | android/src/main/kotlin/com/whelksoft/yasea/SrsMp4Muxer.kt:168-176 | the H.264 format becomes the video format (track 100), any other the audio format (track 101) |
| Mp4Muxer.Recorder.Record | android/src/main/kotlin/com/whelksoft/yasea/SrsMp4Muxer.kt:82-116 | `record` is refused exactly when there is no format at all; otherwise the movie gets a video track when both parameter-set lists are filled and an audio track when there is an audio format, recording starts and the handler is told |
| Mp4Muxer.Recorder.Pause | android/src/main/kotlin/com/whelksoft/yasea/SrsMp4Muxer.kt:121-126 | while recording, pausing sets the flag and tells the handler; otherwise nothing changes |
| Mp4Muxer.Recorder.Resume | android/src/main/kotlin/com/whelksoft/yasea/SrsMp4Muxer.kt:131-137 | while recording, resuming clears the pause, waits for a key frame again and tells the handler; otherwise nothing changes |
| Mp4Muxer.Recorder.Stop | android/src/main/kotlin/com/whelksoft/yasea/SrsMp4Muxer.kt:142-160 | `stop` clears the flags and the queue, waits for a key frame again, and tells the handler the recording finished exactly when a worker was running |
| Mp4Muxer.Recorder.WriteFrameByte | android/src/main/kotlin/com/whelksoft/yasea/SrsMp4Muxer.kt:292-310 | the frame goes through the recording gate as `RecorderState.Offer` specifies (properties in the `OfferEach` lemmas) |
| Mp4Muxer.Recorder.WriteAudioSample | android/src/main/kotlin/com/whelksoft/yasea/SrsMp4Muxer.kt:284-290 | the audio buffer is handled as `AudioOffered` specifies (properties in `Mp4Muxer.FirstAudioDropped`) |
| Mp4Muxer.Recorder.WriteVideoSample | android/src/main/kotlin/com/whelksoft/yasea/SrsMp4Muxer.kt:253-282 | the video buffer is handled as `VideoOffered` specifies (properties in `Mp4Muxer.VideoOfferedKeepsOk`) |
| Mp4Muxer.Recorder.ScanBuffer | android/src/main/kotlin/com/whelksoft/yasea/SrsMp4Muxer.kt:258-280 | the demux loop reads the buffer to its end and keeps the parameter sets and events `ScanParameterSets` specifies |
| Mp4Muxer.Recorder.StoreParameterSet | android/src/main/kotlin/com/whelksoft/yasea/SrsMp4Muxer.kt:259-279 | one round demuxes the next frame, reports a missing start code, and replaces the remembered SPS or PPS as `Take` specifies |
| Mp4Muxer.Recorder.WriteSampleData | android/src/main/kotlin/com/whelksoft/yasea/SrsMp4Muxer.kt:185-191 | track 100 goes to the video writer; any other track to the audio writer, which never raises and leaves the buffer alone |
| Mp4Muxer.Recorder.Poll | android/src/main/kotlin/com/whelksoft/yasea/SrsMp4Muxer.kt:98-101 | the worker takes the oldest queued frame, or nothing from an empty queue |
| VideoEncoder.FirstCode4 | android/src/main/kotlin/com/whelksoft/camera_with_rtmp/VideoEncoder.kt:266-277 | the scan's next start code from an index is the first `00 00 00 01` at or after it below `length - 4`, or there is none from there on |
| VideoEncoder.ScanSpsPps | android/src/main/kotlin/com/whelksoft/camera_with_rtmp/VideoEncoder.kt:263-277 | the loop ends with the index of the first start code and of the second, each -1 when missing |
| VideoEncoder.DecodeSpsPpsAsWritten | android/src/main/kotlin/com/whelksoft/camera_with_rtmp/VideoEncoder.kt:259-290 | `decodeSpsPpsFromBuffer` as written: it throws `ArrayIndexOutOfBoundsException` exactly when both start codes are found and `spsIndex + ppsIndex` exceeds the buffer; otherwise the SPS has `ppsIndex` bytes and the PPS is the buffer from the second start code (see Findings) |
| VideoEncoder.DecodeSpsPps | android/src/main/kotlin/com/whelksoft/camera_with_rtmp/VideoEncoder.kt:259-290 | the corrected split: present exactly when both start codes are found, the SPS is `ppsIndex - spsIndex` bytes long, and SPS ++ PPS is the buffer from the first start code |
| VideoEncoder.DecodeSpsPpsFromBuffer | android/src/main/kotlin/com/whelksoft/camera_with_rtmp/VideoEncoder.kt:259-290 | the corrected split of an H.264 codec-config buffer, as `DecodeSpsPps` defines it (properties in `VideoEncoder.DecodeSpsPpsSplits`) |
| VideoEncoder.DecodeSpsPpsSplits | android/src/main/kotlin/com/whelksoft/camera_with_rtmp/VideoEncoder.kt:259-290 | a split exists exactly when two start codes are found; the SPS and PPS each begin with a start code, no start code lies inside the SPS, and SPS ++ PPS is the buffer from the first start code (the whole buffer when it begins with one) |
| VideoEncoder.AsWrittenAgreesAtZero | android/src/main/kotlin/com/whelksoft/camera_with_rtmp/VideoEncoder.kt:278-282 | when the buffer begins with its start code, the split as written and the corrected one agree |
| VideoEncoder.AsWrittenOverrunsSps | android/src/main/kotlin/com/whelksoft/camera_with_rtmp/VideoEncoder.kt:278-279 | with one byte before the first start code, the SPS as written takes one byte of the PPS's start code |
| VideoEncoder.MarksIncrease | android/src/main/kotlin/com/whelksoft/camera_with_rtmp/VideoEncoder.kt:303-318 | the positions the H.265 scan notes are increasing and each at least 3, below the bytes scanned |
| VideoEncoder.ZeroRunBound | android/src/main/kotlin/com/whelksoft/camera_with_rtmp/VideoEncoder.kt:314-318 | the count of zero bytes before an index never exceeds the index |
| VideoEncoder.RecordMark | android/src/main/kotlin/com/whelksoft/camera_with_rtmp/VideoEncoder.kt:304-312 | noting one more `01` after three zeros fills the VPS position, then the SPS position, then keeps moving the PPS position |
| VideoEncoder.FindH265Positions | android/src/main/kotlin/com/whelksoft/camera_with_rtmp/VideoEncoder.kt:303-319 | the loop ends with the VPS, SPS and PPS positions of the marks in the whole buffer |
| VideoEncoder.SplitH265 | android/src/main/kotlin/com/whelksoft/camera_with_rtmp/VideoEncoder.kt:296-335 | `extractVpsSpsPpsFromH265`'s three parts concatenate back to the buffer, and its only failure is the negative array size |
| VideoEncoder.SplitH265Partitions | android/src/main/kotlin/com/whelksoft/camera_with_rtmp/VideoEncoder.kt:296-335 | `extractVpsSpsPpsFromH265` succeeds exactly when it finds three start codes; then VPS ++ SPS ++ PPS is the buffer, cut at the second start code and the last |
| VideoEncoder.ExtractVpsSpsPpsFromH265 | android/src/main/kotlin/com/whelksoft/camera_with_rtmp/VideoEncoder.kt:296-335 | the copy loop yields the three parts `SplitH265` defines, or the negative-size fault |
| VideoEncoder.Encoder.constructor | android/src/main/kotlin/com/whelksoft/camera_with_rtmp/VideoEncoder.kt:28-40 | a new encoder is stopped, has the bitrate given, and has sent no parameter sets |
| VideoEncoder.Encoder.Start | android/src/main/kotlin/com/whelksoft/camera_with_rtmp/VideoEncoder.kt:115-142 | `start` forgets that parameter sets were sent and runs |
| VideoEncoder.Encoder.Stop | android/src/main/kotlin/com/whelksoft/camera_with_rtmp/VideoEncoder.kt:144-169 | `stop` stops; the flag is cleared only when the codec stops and releases without throwing |
| VideoEncoder.Encoder.SetVideoBitrateOnFly | android/src/main/kotlin/com/whelksoft/camera_with_rtmp/VideoEncoder.kt:189-200 | the bitrate changes only while running |
| VideoEncoder.Encoder.CheckBuffer | android/src/main/kotlin/com/whelksoft/camera_with_rtmp/VideoEncoder.kt:360-371 | a codec-config buffer, while no parameter sets were sent, sends its SPS/PPS split (the corrected split `DecodeSpsPps`, see Findings and "Left out") and sets the flag; anything else changes nothing |
| VideoEncoder.Encoder.ProcessOutput | android/src/main/kotlin/com/whelksoft/camera_with_rtmp/VideoEncoder.kt:380-390 | a stopped encoder sends nothing; a running one checks the buffer as `checkBuffer` does; once the flag is set nothing more is sent; each buffer sends at most one set |
| VideoEncoder.Encoder.FormatChanged | android/src/main/kotlin/com/whelksoft/camera_with_rtmp/VideoEncoder.kt:215-225 | H.264 sends `csd-0` and `csd-1` as SPS and PPS; H.265 sends the three parts of `csd-0`, or raises the split's fault and sends nothing; the flag is set on success |
| VideoEncoder.CheckBuffersSendOnce | android/src/main/kotlin/com/whelksoft/camera_with_rtmp/VideoEncoder.kt:360-371 | between a start and the next stop, however many codec-config buffers arrive, at most one set is sent, and none once the flag is set |
| VideoEncoder.CheckedAllOnce | android/src/main/kotlin/com/whelksoft/camera_with_rtmp/VideoEncoder.kt:360-371 | checking a run of buffers sends at most one set from a clear flag and none from a set one |
| Camera.FirstSuccess | android/src/main/kotlin/com/whelksoft/camera_with_rtmp/Camera.kt:683-691 | the retry index chosen lies between the current count and 3 and is one whose `reTry` succeeds |
| Camera.FirstSuccessIsFirst | android/src/main/kotlin/com/whelksoft/camera_with_rtmp/Camera.kt:683-691 | every index before the chosen one fails, and no index is chosen exactly when every one from the current count through 3 fails |
| Camera.Attempts | android/src/main/kotlin/com/whelksoft/camera_with_rtmp/Camera.kt:683-685 | the retry loop asks `reTry` for each index of the range in increasing order, once each |
| Camera.MediaOrientation | android/src/main/kotlin/com/whelksoft/camera_with_rtmp/Camera.kt:630-634 | the media orientation is congruent modulo 360 to the device offset (negated for the front camera, 0 when unknown) plus the sensor orientation, and lies in 0..359 for orientations in 0..360 |
| Camera.Camera.constructor | android/src/main/kotlin/com/whelksoft/camera_with_rtmp/Camera.kt:63 | a camera starts with no RTMP camera, a retry count of 0, not streaming and no url |
| Camera.Camera.OnConnectionFailedRtmp | android/src/main/kotlin/com/whelksoft/camera_with_rtmp/Camera.kt:680-700 | with an RTMP camera, retries run from the current count until one succeeds: one retry event is sent and the count stays at that index; when none succeeds the stream is stopped, the RTMP camera dropped and one stopped event sent; without an RTMP camera nothing changes |
| Camera.Camera.StartVideoStreaming | android/src/main/kotlin/com/whelksoft/camera_with_rtmp/Camera.kt:526-550 | without a url only the "fileExists" error is returned; otherwise the retry count is reset, a new RTMP camera is prepared, the stream starts once the capture session exists, and the reply is success or "videoStreamingFailed" accordingly |
| Camera.Camera.PrepareRtmpPublished | android/src/main/kotlin/com/whelksoft/camera_with_rtmp/Camera.kt:97-115 | an existing RTMP camera is stopped first; the new one is prepared with the given bitrate, or 1200 * 1024 when none is given |
| Camera.Camera.StopVideoStreaming | android/src/main/kotlin/com/whelksoft/camera_with_rtmp/Camera.kt:552-569 | when not streaming it answers success and changes nothing; otherwise the count, flag and url are reset before the RTMP camera is stopped, which raises NullPointerException when a failed retry already dropped it |
| Camera.Camera.OnDisconnectRtmp | android/src/main/kotlin/com/whelksoft/camera_with_rtmp/Camera.kt:708-713 | the stream is stopped and one "Disconnected" stopped event sent; without an RTMP camera it raises NullPointerException and sends nothing |
| SrsEncoder.WeakCountAppend | android/src/main/kotlin/com/whelksoft/yasea/SrsEncoder.kt:331-334 | the weak notices of two runs of notices add up |
| SrsEncoder.RunSnoc | android/src/main/kotlin/com/whelksoft/yasea/SrsEncoder.kt:311-335 | one more frame after a run passes the same gate, and counts as a rejection exactly when refused |
| SrsEncoder.RunNotices | android/src/main/kotlin/com/whelksoft/yasea/SrsEncoder.kt:311-335 | after a run from a clear flag the flag says whether the last frame was refused; every refused frame sends a weak notice; every resume notice directly follows a weak one; a set flag means the last notice is weak |
| SrsEncoder.PcmBufferSize | android/src/main/kotlin/com/whelksoft/yasea/SrsEncoder.kt:471-476 | the PCM buffer is a multiple of 8192 at least the platform minimum and less than 8192 above it |
| SrsEncoder.ChooseColorFormat | android/src/main/kotlin/com/whelksoft/yasea/SrsEncoder.kt:503-532 | the colour format is the largest supported one between YUV420 planar and semi-planar, or 0 exactly when none is |
| SrsEncoder.Encoder.constructor | android/src/main/kotlin/com/whelksoft/yasea/SrsEncoder.kt:13-30 | a new encoder picks its colour format as `ChooseColorFormat`, uses the hardware encoder, and starts with 640x360 preview and 360x640 portrait output |
| SrsEncoder.Encoder.Start | android/src/main/kotlin/com/whelksoft/yasea/SrsEncoder.kt:39-57 | `start` fails without both muxers, and then leaves the clock; otherwise it takes the clock |
| SrsEncoder.Encoder.Pause | android/src/main/kotlin/com/whelksoft/yasea/SrsEncoder.kt:121-123 | the pause time is the current time |
| SrsEncoder.Encoder.Resume | android/src/main/kotlin/com/whelksoft/yasea/SrsEncoder.kt:125-129 | the presentation clock moves on by the paused interval, so a frame at resume gets the time a frame at pause had |
| SrsEncoder.Encoder.OnGetVideoFrame | android/src/main/kotlin/com/whelksoft/yasea/SrsEncoder.kt:311-417 | a frame is accepted exactly when the muxer's video cache is known and below 48; an accepted frame is submitted at its presentation time and ends a weak spell with one resume notice; a refused frame sends weak; the software encoder takes only RGBA, and an unknown colour format throws |
| SrsEncoder.Encoder.OnGetPcmFrame | android/src/main/kotlin/com/whelksoft/yasea/SrsEncoder.kt:282-309 | PCM goes to the codec at its presentation time exactly when the cache test passes, with no notices |
| SrsEncoder.Encoder.SwitchToSoftEncoder | android/src/main/kotlin/com/whelksoft/yasea/SrsEncoder.kt:166-168 | the software encoder is selected |
| SrsEncoder.Encoder.SwitchToHardEncoder | android/src/main/kotlin/com/whelksoft/yasea/SrsEncoder.kt:170-172 | the hardware encoder is selected |
| SrsEncoder.Encoder.SetPreviewResolution | android/src/main/kotlin/com/whelksoft/yasea/SrsEncoder.kt:185-188 | the preview size is the one given |
| SrsEncoder.Encoder.SetPortraitResolution | android/src/main/kotlin/com/whelksoft/yasea/SrsEncoder.kt:190-197 | the output and portrait sizes are the one given and the landscape size is it turned |
| SrsEncoder.Encoder.SetLandscapeResolution | android/src/main/kotlin/com/whelksoft/yasea/SrsEncoder.kt:199-206 | the output and landscape sizes are the one given and the portrait size is it turned |
| SrsEncoder.Encoder.SetScreenOrientation | android/src/main/kotlin/com/whelksoft/yasea/SrsEncoder.kt:218-235 | the output takes the portrait or landscape size for that orientation and stays for any other, keeping the two sizes each other's turn |
| Connector.DestinationsIndependent | android/src/main/kotlin/com/whelksoft/camera_with_rtmp/RtmpCameraConnector.kt:438-451 | the intended routing, `Destinations` (corrected member of the third Findings row): audio and video reach the RTMP client exactly while streaming unpaused and the recorder exactly while recording unpaused, each regardless of the other flags; parameter sets, with or without a VPS, go only to the client; nothing else is done |
| Connector.NullVpsNeverDelivered | android/src/main/kotlin/com/whelksoft/camera_with_rtmp/RtmpCameraConnector.kt:443-445 | as written, parameter sets without a VPS (every H.264 call) throw NullPointerException whatever the flags, even while streaming unpaused where the intended routing sends them to the client; every other delivery follows `Destinations` |
| Connector.TransportResolution | android/src/main/kotlin/com/whelksoft/camera_with_rtmp/RtmpCameraConnector.kt:349-356 | the client is given the encoder's two dimensions, in some order |
| Connector.TransportResolutionTurns | android/src/main/kotlin/com/whelksoft/camera_with_rtmp/RtmpCameraConnector.kt:349-356 | the client's resolution has the encoder's two dimensions and area, in swapped order exactly for rotations of 90 and 270 degrees |
| Connector.Connector.constructor | android/src/main/kotlin/com/whelksoft/camera_with_rtmp/RtmpCameraConnector.kt:44-84 | a new connector is neither streaming nor recording, nothing is paused, there is no video encoder and nothing was asked |
| Connector.Connector.PrepareVideo | android/src/main/kotlin/com/whelksoft/camera_with_rtmp/RtmpCameraConnector.kt:136-150 | both pauses are cleared and a stopped video encoder of the given size is made, with no rotation of its own under OpenGL; the encoder's `prepare` is the answer |
| Connector.Connector.StartStream | android/src/main/kotlin/com/whelksoft/camera_with_rtmp/RtmpCameraConnector.kt:214-220 | a no-op while streaming; otherwise streaming is set and the client gets the transport resolution and connects, or the missing encoder throws |
| Connector.Connector.StartStreamRtp | android/src/main/kotlin/com/whelksoft/camera_with_rtmp/RtmpCameraConnector.kt:349-356 | the client gets the transport resolution, then connects; without a video encoder it throws before asking anything |
| Connector.Connector.StartEncoders | android/src/main/kotlin/com/whelksoft/camera_with_rtmp/RtmpCameraConnector.kt:241-245 | the encoders start, or the missing video encoder throws and nothing changes |
| Connector.Connector.StartRecord | android/src/main/kotlin/com/whelksoft/camera_with_rtmp/RtmpCameraConnector.kt:222-231 | a no-op while recording; otherwise the recorder starts, recording is set, and the encoders start only when not streaming |
| Connector.Connector.StopStream | android/src/main/kotlin/com/whelksoft/camera_with_rtmp/RtmpCameraConnector.kt:255-264 | streaming is cleared and the client disconnected; the encoders stop only when not recording |
| Connector.Connector.StopRecord | android/src/main/kotlin/com/whelksoft/camera_with_rtmp/RtmpCameraConnector.kt:233-239 | recording is cleared and the recorder stopped; when not streaming the stream is stopped too, which stops the encoders |
| Connector.Connector.PauseStream | android/src/main/kotlin/com/whelksoft/camera_with_rtmp/RtmpCameraConnector.kt:266-268 | streaming is paused |
| Connector.Connector.ResumeStream | android/src/main/kotlin/com/whelksoft/camera_with_rtmp/RtmpCameraConnector.kt:270-272 | streaming is no longer paused |
| Connector.Connector.PauseRecord | android/src/main/kotlin/com/whelksoft/camera_with_rtmp/RtmpCameraConnector.kt:274-276 | recording is paused |
| Connector.Connector.ResumeRecord | android/src/main/kotlin/com/whelksoft/camera_with_rtmp/RtmpCameraConnector.kt:278-280 | recording is no longer paused |
| Connector.Connector.ReTry | android/src/main/kotlin/com/whelksoft/camera_with_rtmp/RtmpCameraConnector.kt:282-289 | the client's retry answer is returned; exactly when it is yes the video encoder is reset and the client reconnects after the delay |
| Connector.Connector.Deliver | android/src/main/kotlin/com/whelksoft/camera_with_rtmp/RtmpCameraConnector.kt:438-451 | audio and video go to the destinations the session flags allow; parameter sets without a VPS throw NullPointerException on entry with nothing asked of anyone; parameter sets with a VPS go to the client while streaming unpaused |
| Connector.Connector.OnConnectionSuccessRtmp | android/src/main/kotlin/com/whelksoft/camera_with_rtmp/RtmpCameraConnector.kt:484-490 | the encoders start unless the video encoder already runs, then the success is passed on |
| IosStreaming.Components | ios/Classes/FlutterRTMPStreaming.swift:44 | splitting at slashes gives at least one piece and no piece holds a slash |
| IosStreaming.FirstSlash | ios/Classes/FlutterRTMPStreaming.swift:44 | the index found is a slash, the first one from where the search starts |
| IosStreaming.JoinedComponents | ios/Classes/FlutterRTMPStreaming.swift:44-46 | joining the pieces with slashes gives the url back |
| IosStreaming.JoinedSnoc | ios/Classes/FlutterRTMPStreaming.swift:45-46 | joining all but the last piece and then the last after a slash is joining them all |
| IosStreaming.BaseUrlSplits | ios/Classes/FlutterRTMPStreaming.swift:44-46 | the connection url, a slash and the last piece make up the url whenever it has a slash; the last piece holds no slash; without a slash the connection url is empty |
| IosStreaming.StreamName | ios/Classes/FlutterRTMPStreaming.swift:37-43 | the stream name exists exactly when the url has a last path component, and carries the query after `?` when there is one |
| IosStreaming.Pow2 | ios/Classes/FlutterRTMPStreaming.swift:97 | the retry delay is at least one second |
| IosStreaming.ConsecutiveFailures | ios/Classes/FlutterRTMPStreaming.swift:90-100 | from a count of at most 4, consecutive failures are retried while the count is at most 3, the n-th retry after 2^n seconds, and every later failure gives up |
| IosStreaming.GiveUpStays | ios/Classes/FlutterRTMPStreaming.swift:91-95 | past three retries every failure gives up and the count stays |
| IosStreaming.Raised | ios/Classes/FlutterRTMPStreaming.swift:199-208 | the raised bitrate is 512 kbit/s more, at most 2500 kbit/s, and the unsigned 32-bit addition traps exactly when it overflows |
| IosStreaming.Lowered | ios/Classes/FlutterRTMPStreaming.swift:212-221 | the lowered bitrate is half, at least 300 kbit/s, and stays a 32-bit value |
| IosStreaming.QosKeepsRange | ios/Classes/FlutterRTMPStreaming.swift:194-221 | a bitrate within 300..2500 kbit/s stays there after either adjustment; raising never lowers it and lowering never raises it |
| IosStreaming.LandscapeSizeAsWritten | ios/Classes/FlutterRTMPStreaming.swift:65-67 | the landscape settings as written: square whatever the stream's width (see Findings) |
| IosStreaming.LandscapeSize | ios/Classes/FlutterRTMPStreaming.swift:65-67 | the landscape settings keep the area, and are square exactly when the stream is |
| IosStreaming.LandscapeSizeSquares | ios/Classes/FlutterRTMPStreaming.swift:65-67 | for 1280x720 the settings as written become 720x720, where the exchange gives 720x1280 |
| IosStreaming.Publisher.constructor | ios/Classes/FlutterRTMPStreaming.swift:12-24 | a new publisher has a zero retry count, has asked nothing and has no bitrate setting |
| IosStreaming.Publisher.Open | ios/Classes/FlutterRTMPStreaming.swift:27-75 | the stream name and the connection url come from the url, the video settings are the size given (for a landscape interface the corrected exchange `LandscapeSize`, see Findings and "Left out"), the count is reset, and the connection url is connected |
| IosStreaming.Publisher.RtmpStatusHandler | ios/Classes/FlutterRTMPStreaming.swift:78-105 | success publishes the name and resets the count; a failed or closed connection follows the retry rule with a retry event, or sends an error when giving up; any other code does nothing |
| IosStreaming.Publisher.RtmpErrorHandler | ios/Classes/FlutterRTMPStreaming.swift:107-123 | an I/O error follows the retry rule, sending a stopped event when giving up |
| IosStreaming.Publisher.Reconnect | ios/Classes/FlutterRTMPStreaming.swift:91-100 | the retry rule: give up past three retries; otherwise count, wait 2^count seconds, reconnect and send a retry event |
| IosStreaming.Publisher.DidPublishSufficientBW | ios/Classes/FlutterRTMPStreaming.swift:199-208 | the bitrate setting, when it reads as a 32-bit value, becomes the raised one, or the addition traps and nothing changes |
| IosStreaming.Publisher.DidPublishInsufficientBW | ios/Classes/FlutterRTMPStreaming.swift:212-221 | the bitrate setting, when it reads as a 32-bit value, becomes the lowered one |
| CameraUtils.Preferences | android/src/main/kotlin/com/whelksoft/camera_with_rtmp/CameraUtils.kt:63-184 | every preset's preference list is non-empty and ends with the low quality |
| CameraUtils.FirstAvailable | android/src/main/kotlin/com/whelksoft/camera_with_rtmp/CameraUtils.kt:63-184 | the chosen quality is on the list, the device has it and has none listed before it; the `IllegalArgumentException` comes exactly when the device has none of the list |
| CameraUtils.BestProfile | android/src/main/kotlin/com/whelksoft/camera_with_rtmp/CameraUtils.kt:63-185 | the branch chain returns only a quality the device has, and throws `IllegalArgumentException` only when it lacks even the low quality |
| CameraUtils.BestProfileIsFirstAvailable | android/src/main/kotlin/com/whelksoft/camera_with_rtmp/CameraUtils.kt:63-185 | every branch of the fallback chain, including the one for no preset, picks the first quality of the preset's preference list the device has, and throws exactly when it has none |
| CameraUtils.PreferAllStep | android/src/main/kotlin/com/whelksoft/camera_with_rtmp/CameraUtils.kt:67-92 | one step of the chain: the list's head when the device has it, otherwise the rest of the chain |
| CameraUtils.UnfoldFirst | android/src/main/kotlin/com/whelksoft/camera_with_rtmp/CameraUtils.kt:63-184 | the chain of per-quality tests ending in the low-or-throw test is the first available quality of the list |
| CameraUtils.PreferencesDropHead | android/src/main/kotlin/com/whelksoft/camera_with_rtmp/CameraUtils.kt:66-183 | `max` tries every quality from `QUALITY_HIGH` down; each lower preset tries the list of the one above without its head; no preset tries only `QUALITY_LOW` |
| CameraUtils.PreviewPreset | android/src/main/kotlin/com/whelksoft/camera_with_rtmp/CameraUtils.kt:24-27 | the preview preset is at most `high`, and a preset up to `high` is kept |
| CameraUtils.BestPreviewSize | android/src/main/kotlin/com/whelksoft/camera_with_rtmp/CameraUtils.kt:23-30 | the preview size is the size of a quality the device has on the capped preset's list, and the lookup throws exactly when it has none of them |
| CameraUtils.PreviewAtMost720p | android/src/main/kotlin/com/whelksoft/camera_with_rtmp/CameraUtils.kt:23-30 | the preview never uses a quality above 720p, and for presets from `high` up it is the best the device has from 720p down |
| CameraUtils.CompareSizesByAreaOrder | android/src/main/kotlin/com/whelksoft/camera_with_rtmp/CameraUtils.kt:187-193 | the comparator is antisymmetric, in -1..1, zero exactly on equal areas and positive exactly when the first area is larger |
| CameraUtils.LargestByArea | android/src/main/kotlin/com/whelksoft/camera_with_rtmp/CameraUtils.kt:35-37 | `Collections.max` returns a size of the list with the largest area, the first such |
| CameraUtils.BestCaptureSize | android/src/main/kotlin/com/whelksoft/camera_with_rtmp/CameraUtils.kt:33-38 | the capture size is a JPEG output size with the largest area; an empty list throws |
| CameraPermissions.VerdictSucceedsIffGranted | android/src/main/kotlin/com/whelksoft/camera_with_rtmp/CameraPermissions.kt:69-75 | a handled call succeeds exactly when the camera was granted and the audio too when asked for; a failure is a `cameraPermission` error naming the camera when its result is missing or denied, otherwise the audio |
| CameraPermissions.AnswersAtMostOnce | android/src/main/kotlin/com/whelksoft/camera_with_rtmp/CameraPermissions.kt:58-79 | a listener answers at most once and never after it has answered; otherwise it answers exactly when some call carries the request id 9796, with the verdict of the first such call |
| CameraPermissions.Permissions.constructor | android/src/main/kotlin/com/whelksoft/camera_with_rtmp/CameraPermissions.kt:12-18 | a new object has no request ongoing, has told nothing and requested nothing |
| CameraPermissions.Permissions.RequestPermissions | android/src/main/kotlin/com/whelksoft/camera_with_rtmp/CameraPermissions.kt:19-45 | an ongoing request is reported as an error and the call carries on; when a permission is missing a fresh listener is returned, the request is marked ongoing and the camera (and microphone when audio is enabled) requested; otherwise success is reported at once |
| CameraPermissions.Permissions.OnResult | android/src/main/kotlin/com/whelksoft/camera_with_rtmp/CameraPermissions.kt:30-34 | the wrapped callback clears the ongoing mark and passes the answer on |
| CameraPermissions.Listener.constructor | android/src/main/kotlin/com/whelksoft/camera_with_rtmp/CameraPermissions.kt:58-63 | a new listener belongs to its object and has not answered |
| CameraPermissions.Listener.OnRequestPermissionsResult | android/src/main/kotlin/com/whelksoft/camera_with_rtmp/CameraPermissions.kt:64-77 | a repeat call or another request id is declined and changes nothing; the first call for the request is handled, answered with its verdict, and clears the ongoing mark |

## Left out

- Threads: the FLV and MP4 worker threads, `wait(500)`/`notifyAll`, `join`, `@Volatile` and the `AtomicInteger` cache counter. The worker's loop is modelled as sequential steps (`FlvMuxer.Muxer.PollOne`, `FlvMuxer.Muxer.Drain`, `Mp4Muxer.Recorder.Poll`); interleavings are not.
- The network transport: the yasea `DefaultRtmpPublisher`, the `RtmpClient` of `RtmpCameraConnector`, and HaishinKit's `RTMPConnection`/`RTMPStream`. They are foreign libraries. Their answers (`shouldRetry`, whether a publish succeeds, whether a stream exists) are parameters, and what is asked of them is recorded as effects.
- Codecs and native code: MediaCodec buffer dequeuing and configuration, the libyuv/x264 `external fun`s, `AudioRecord`, and the `MediaCodecList` enumeration. These are platform APIs. A frame handed to them is a recorded submission, and the supported colour formats are a parameter.
- MP4 box serialisation and file I/O: the movie, track and file-type boxes, `finishMovie`, and the FileChannel writes. Only the sample tables, the timescale, the mdat header arithmetic and the recorder's state are modelled.
- Camera2 sessions, surfaces, image readers and Flutter textures: most of both `Camera.kt` files, `RtmpCamera2ApiManager.kt` and `RtmpOnSurface.kt`. They are device plumbing. Whether a capture session could be created is a parameter.
- Floating point: `CameraZoom.kt`, the zoom crop, and the rounding of the device orientation to a multiple of 90 degrees. `mediaOrientation` takes the already-rounded orientation.
- Flutter glue: `MethodCallHandlerImpl.kt`, `RtmppublisherPlugin.kt`, `DartMessenger.kt`, `SwiftRtmppublisherPlugin.swift`, and the handler wrappers `SrsEncodeHandler.kt` and `SrsRecordHandler.kt`. Events sent through them are recorded as values.
- Thin wrappers that only forward to library objects: `RtmpCamera2.kt`, `RtmpCamera2Base.kt`, `RtmpPublisher.kt` and `FlutterRtmpPublisher.kt`.
- Clocks and sleeping: `System.nanoTime`, `Thread.sleep` and `Date()`. Times are parameters, and a retry's sleep is the delay recorded with its reconnect.
- The iOS URL parser: `URL(string:)`, its `pathComponents` and its `query` are inputs to `IosStreaming.Publisher.Open`. Only the slash split is computed.
- The `CamcorderProfile` lookup: which qualities a camera has and their frame sizes are functions passed in. Parsing the camera name with `toInt()` is not modelled.
- The permission checks and listener registration of `CameraPermissions`: whether each permission is already held is an input, and the returned listener stands for the one registered.
- `java.nio.ByteBuffer` is modelled with offset 0 and with its limit equal to the bytes it holds. Slices, marks and direct buffers are not modelled.
- Tag recycling: `sendFlvTag` gives each sent tag's allocation back to the pool. The model's queue holds the tags' bytes, so that release is not modelled inside the muxer. `SrsAllocator.Pool.Release` models the pool side.
- The audio and video encoders' own `prepare`, `reset`, `forceSyncFrame`, FPS limiter and the remaining getters and setters of `RtmpCameraConnector`, `SrsEncoder` (`setVideoHDMode`, `setVideoSmoothMode`, `chooseAudioRecord`) and `VideoEncoder`. They only forward to the platform or store a value that the modelled core does not read.
- SrsAllocator.Allocation.Put: requires room for the byte. The `ArrayIndexOutOfBoundsException` of a put on a full allocation is not modelled; every caller allocates enough. The same holds for `PutAt`, `PutShort`, `PutInt` and `PutBytes`.
- SrsAllocator.Pool.Release: requires an allocation that is not already in the pool. Releasing the same allocation twice, which would store it in two slots, is not modelled.
- Mp4Track.ScaledDelta: Java's 64-bit overflow of `delta * timeScale` is not modelled. Deltas and timescales are unbounded integers.
- FlvMuxer.Muxer: the cached video-frame count that `SrsEncoder` reads belongs to the publisher in the source; here it is a field of the muxer.
- VideoEncoder.Encoder.CheckBuffer: sends the corrected SPS/PPS split (`DecodeSpsPps`), not the over-long SPS or the `ArrayIndexOutOfBoundsException` of `decodeSpsPpsFromBuffer` as written; the code as written is `VideoEncoder.DecodeSpsPpsAsWritten`, first row of "Findings".
- IosStreaming.Publisher.Open: a landscape interface gets the corrected exchanged size (`LandscapeSize`), not the square size of the code as written; that is `IosStreaming.LandscapeSizeAsWritten`, second row of "Findings".
- VideoEncoder.Encoder.FormatChanged, VideoEncoder.Encoder.CheckBuffer: the listener is taken to return. With `RtmpCameraConnector` as the listener, every H.264 `onSpsPpsVps` call throws (`Connector.Connector.Deliver`, third row of "Findings"), and in the source that exception leaves `spsPpsSetted` unset and escapes the encoder; the model records the call as sent and sets the flag.
- FlvCodec.AudioSpecificConfig: the audio bit-packing of `SrsFlvMuxer.kt` (`(bb[0] and 0xf8) as Byte`, `samplingFrequencyIndex shr 1`, `(sound_type and 0x01) as Byte`) applies `and`, `or` and `shr` to `Byte` values, which standard Kotlin defines only for `Int` and `Long`. The model reads these lines as the bit operations on the byte values they evidently mean; the same reading holds for `FlvCodec.AudioTagHeaderFields`, `FlvMuxer.MuxAudioTag` and `FlvMuxer.FillAudioTag`. `SrsAllocator.Allocation.PutShort` differs because its `Int as Byte` is well-typed and throws ClassCastException at run time.
- SrsEncoder.Encoder: the settings the source keeps in the companion object (the preview, portrait, landscape and output sizes) are static there and shared by every `SrsEncoder`; here each encoder holds its own copy, set by its constructor, so one encoder's changes are not seen by another.
- Mp4Muxer.Recorder: a queued frame holds a copy of its bytes, where the source queues the `ByteBuffer` itself; later writes to a buffer after it was queued, through another reference to it, are not modelled.
- SrsAllocator.Pool.Release: takes an allocation, never null; the `NullPointerException` of `release(null)` is not modelled.
- Mp4Muxer.Recorder.Record: the `!!` NullPointerExceptions while building the sample description boxes (`h264_sps!!` with no SPS, a sample rate missing from `samplingFrequencyIndexMap`) are not modelled, because the box building is not part of the model.
- Int and Long overflow is not modelled where the model does not say otherwise: bitrates, sizes, timestamps and counters are unbounded integers. The 24-bit composition time, `toByte()` and the 32-bit `toInt()` are modelled explicitly.

## Findings

| source | as written | input that shows it | evidently intended | confidence | as-written member | corrected member |
|---|---|---|---|---|---|---|
| android/src/main/kotlin/com/whelksoft/camera_with_rtmp/VideoEncoder.kt:278-279 | the SPS array has `ppsIndex` bytes copied from `spsIndex`, so when the first start code is not at index 0 the SPS runs into the PPS's start code (or past the buffer's end, which throws) | `AA 00 00 00 01 67 00 00 00 01 68 01`: the SPS comes out as `00 00 00 01 67 00` | the SPS is the `ppsIndex - spsIndex` bytes from `spsIndex` up to the PPS start code | high, not executed | VideoEncoder.DecodeSpsPpsAsWritten, VideoEncoder.AsWrittenOverrunsSps | VideoEncoder.DecodeSpsPps, VideoEncoder.DecodeSpsPpsSplits |
| ios/Classes/FlutterRTMPStreaming.swift:65-67 | for a landscape interface the video width is set to the height, and the height stays the height | a 1280x720 stream becomes 720x720 | width and height exchanged, giving 720x1280 | medium, not executed | IosStreaming.LandscapeSizeAsWritten, IosStreaming.LandscapeSizeSquares | IosStreaming.LandscapeSize, IosStreaming.Publisher.Open |
| android/src/main/kotlin/com/whelksoft/camera_with_rtmp/RtmpCameraConnector.kt:443-445 | `onSpsPpsVps` overrides a Java interface method but declares `vps: ByteBuffer` non-null, so Kotlin checks it on entry; the H.264 encoder passes `null` for it (`VideoEncoder.kt` lines 222 and 366) | any H.264 `onSpsPpsVps(sps, pps, null)` while streaming unpaused throws NullPointerException and nothing reaches the RTMP client | `vps: ByteBuffer?`, with the parameter sets sent to the client while streaming unpaused | high, not executed | Connector.Connector.Deliver, Connector.NullVpsNeverDelivered | Connector.Destinations, Connector.DestinationsIndependent |
