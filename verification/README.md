# zlmediakit-rs, modelled in Dafny

zlmediakit-rs moves encoded media between containers and protocols. This project models its paired writers and
readers, byte for byte, together with the small concurrent graph that feeds them, and proves what each pair promises:
that a reader gets back what a writer put in, over whole runs and for every way a stream can be cut.

| files | what they model |
|---|---|
| Bytes, Bits, Crc, Frames | big-endian fields, the bit writer, the MPEG-2 checksum, the media frame |
| AnnexB, Framing, Payload | NAL unit scanning and framing, payload normalisation |
| PsMuxer, PsMuxerRun, PsDemuxer, PsStream | MPEG program streams: writer, runs, incremental reader, round trips |
| Rtp, RtpStream, RtpRun | RTP packetisation, H.264 and H.265 fragmentation, program streams over RTP, the RTSP depacketizer |
| GopCache, MediaGraph, ProxyTable, ProxyHistory | the group-of-pictures cache, publish and join, proxies and origin pulls |
| Boxes, Fmp4Muxer, Fmp4Demuxer, Fmp4Stream, Fmp4Run, Fmp4Init, Fmp4InitStream | fragmented MP4 |
| SampleTable | the sample tables of classic MP4 |
| Ts, LiveTs, TsStream | MPEG transport stream packets and the live muxer |
| Flv, Vod | FLV, and seeking in recordings |

How the model is built:

- Code that updates state is a class or a method with loops, proved against a function that specifies it; the laws are
  lemmas about those functions. Concurrent code is a state machine over its atomic steps, and its theorems hold for every
  list of events.
- Bytes are integers below 256. Widths and wrap-around are written out where they matter: encoders truncate as the source's
  casts do, and saturating operations are explicit.
- Every lemma carries `{:induction false}`, so each proof is its body and nothing is left to automatic induction.
- Errors are a `Result`; the text of an error message is not modelled.
- The RTP packetizer is read both by the repository's own depacketizer and by a receiver written from sections 5.2 and 5.8 of
  RFC 6184 and section 4.4 of RFC 7798. Transport streams are read by a receiver written from section 2.4.3 of
  ISO/IEC 13818-1.

Where the code does not do what one might expect, the code is followed. For each case one lemma gives a concrete input or
run, and another states, for every input, exactly when the expected property holds:

- Converting length-prefixed units to Annex-B and back loses a unit that contains 00 00 01 (`NalFraming.RoundTripCanFail`,
  `NalFraming.RoundTripExactlyWhenClean`).
- The program stream scan skips an entity behind an odd run of overlapping start codes (`PsDemux.ScanCanMissAnEntity`,
  `PsDemux.ScanFindsFirstEntity`).
- ADTS headers do not carry eight or more channels, and in transport streams not object types above four
  (`PsMux.AdtsCanFail`, `PsMux.AdtsRoundTrip`; `LiveTs.AdtsCanFail`, `LiveTs.AdtsRoundTrip`).
- A whole NAL unit whose type names another payload structure is not received (`RtpStream.UnitCanBeLost`,
  `RtpStream.AccessUnitReassembles`).
- The depacketizer of the RTSP session takes a whole H.264 unit of type 24 apart, and ignores or misreads the other types
  that do not stand for a unit (`RtpRun.UnitCanBeSplit`, `RtpRun.EveryUnitArrives`).
- With a payload limit that leaves no room for a fragment, the fragmentation loop never ends (`Rtp.FragmentationCanStall`,
  `Rtp.FragmentationEnds`).
- The time of a video frame over RTP wraps after 13 hours (`RtpRun.VideoTimeCanWrap`, `RtpRun.VideoTimeReturns`).
- A dropped one-byte H.265 unit takes the RTP marker with it (`RtpStream.MarkerCanBeMissing`, `RtpStream.AccessUnitShape`).
- The AAC access unit size in RTP wraps at 8192 bytes (`Rtp.AacUnitSizeCanWrap`, `Rtp.AacUnitSize`).
- A snapshot taken before subscribing loses frames (`MediaGraph.SnapshotFirstCanLose`, `MediaGraph.LostExactly`).
- The clean-up of an origin pull takes another caller's entry if one was inserted since (`ProxyTable.CleanupCanTakeAnother`,
  `ProxyHistory.CleanupTakesOwn`).
- The fixed descriptor length in `esds` covers AAC configurations of up to five bytes (`Fmp4InitStream.EsdsCanLose`,
  `Fmp4InitStream.EsdsRoundTrip`).
- A transport stream PES length wraps above 65527 payload bytes (`LiveTs.DataPesCanFail`, `LiveTs.DataPesRoundTrip`), and one
  to seven bytes of padding suppress the random access flag (`Ts.RandomAccessCanBeLost`, `Ts.RandomAccessFlag`).
- In a recording that is not in order of time, a later request can start earlier (`Vod.SeekCanGoBack`, `Vod.SeekIsMonotone`).

## Model

| member | source | states |
|---|---|---|
| `NalUnits.AnnexBNaluRanges` | crates/core/src/payload.rs:381-408 | The ranges, cut out of the data, are exactly the non-empty NAL units between start codes of three or four bytes, in order |
| `NalUnits.AnnexBNalus` | crates/core/src/rtp.rs:255-281 | Returns the same list of units as the scanner of payload.rs, on every input |
| `NalUnits.ParseAnnexB264` | crates/codec/src/h264.rs:19-49 | Its non-empty units are that same list on every input |
| `NalUnits.ParseAnnexB265` | crates/codec/src/h265.rs:20-50 | Its non-empty units are that same list on every input |
| `NalUnits.NalsAreClean` | crates/core/src/payload.rs:381-408 | No unit returned by the scanners contains 00 00 01 |
| `NalUnits.NalsOfAnnexB4` | crates/core/src/payload.rs:361-408 | Scanning units written behind four-byte start codes returns those units, if none contains 00 00 01 |
| `NalFraming.AnnexBToLengthPrefixed` | crates/core/src/payload.rs:346-359 | The units behind 32-bit lengths; an error exactly if there is no unit |
| `NalFraming.LengthPrefixedToAnnexB` | crates/core/src/payload.rs:361-379 | The units behind four-byte start codes; an error exactly if a length is zero or overruns the data or there is no unit |
| `NalFraming.ParseOfLengthPrefixed` | crates/core/src/payload.rs:361-379 | Reading length-prefixed units gives back the units that were framed |
| `NalFraming.LengthPrefixedOfParse` | crates/core/src/payload.rs:361-379 | A buffer that can be read is byte for byte the framing of its units |
| `NalFraming.RoundTripExactlyWhenClean` | crates/core/src/payload.rs:346-379 | Length-prefixed to Annex-B and back is the identity if and only if no unit contains 00 00 01 |
| `NalFraming.RoundTripCanFail` | crates/core/src/payload.rs:346-379 | A length-prefixed unit holding 00 00 01 does not come back: a concrete input |
| `NalFraming.CanonicalKeepsUnits` | crates/core/src/payload.rs:346-379 | Annex-B to length-prefixed and back succeeds exactly if there is a unit, keeps every unit and is idempotent |
| `Bits.BitWriter.Push` | crates/core/src/ps.rs:340-350 | Appends the low bits of the value, most significant first, to the bits written so far |
| `Bits.BitWriter.Finish` | crates/core/src/ps.rs:352-358 | Returns the written bits packed into bytes, filled up with zero bits |
| `Bits.UnpackPack` | crates/core/src/ps.rs:333-358 | Bits packed into bytes are read back |
| `Crc.Mpeg2Crc32` | crates/core/src/ps.rs:317-330 | The register after the nested loops is the bit-by-bit polynomial division of the data |
| `Crc.CrcOfCheckedData` | crates/core/src/ps.rs:317-330 | The checksum of any data followed by its own checksum is zero |
| `PsMux.Timestamp90k` | crates/core/src/ps.rs:145-147 | Milliseconds times 90 modulo 2^33, although the product wraps at 64 bits first |
| `PsMux.WritePackHeader` | crates/core/src/ps.rs:149-168 | The fourteen bytes are the prescribed bit fields |
| `PsMux.PackHeaderCarriesScr` | crates/core/src/ps.rs:149-168 | A reader of the bit fields finds the clock reference, and a stuffing length of zero |
| `PsMux.WriteSystemHeader` | crates/core/src/ps.rs:170-210 | The system header with one entry per track and its own length |
| `PsMux.WriteStreamMap` | crates/core/src/ps.rs:212-229 | The stream map with one entry per track and its checksum |
| `PsMux.AdtsRoundTrip` | crates/core/src/ps.rs:286-301 | An AAC frame behind its ADTS header is stripped back, its length field is right, and the parameters come back if and only if there are fewer than eight channels |
| `PsMux.AdtsCanFail` | crates/core/src/ps.rs:286-301 | Eight channels do not come back: a concrete input |
| `PsMuxer.PsMuxer.constructor` | crates/core/src/ps.rs:39-57 | Unsupported codecs are left out, no track is listed twice, the AAC parameters come from the last AAC track, and a map is pending |
| `PsMuxer.PsMuxer.AddCodec` | crates/core/src/ps.rs:96-102 | A supported codec is added at the end unless its track is listed |
| `PsMuxer.PsMuxer.MuxFrame` | crates/core/src/ps.rs:59-94 | The bytes are those of the frame's pack header, headers and PES packets; errors write nothing but may keep a new track |
| `PsMuxer.FewTracks` | crates/core/src/ps.rs:96-143 | At most seven tracks can ever be listed, so the header lengths never wrap |
| `PsMuxer.RunKeeps` | crates/core/src/ps.rs:59-102 | Every run keeps the invariant: sizes fit their fields and every packet is announced by an earlier map |
| `PsMuxer.NewRunKeeps` | crates/core/src/ps.rs:39-94 | From a new muxer on, no PES packet is written before a map that lists its track |
| `PsDemux.FindStartCode` | crates/codec/src/ps.rs:124-148 | What the scan returns is an entity start code at or after the offset |
| `PsDemux.ScanFindsFirstEntity` | crates/codec/src/ps.rs:124-148 | The scan stops at the first entity from any offset on if and only if the number of overlapping start codes right before it is even |
| `PsDemux.ScanCanMissAnEntity` | crates/codec/src/ps.rs:124-148 | With one such overlap the entity is missed: a concrete input |
| `PsDemux.ParseProgramStreamMap` | crates/codec/src/ps.rs:195-222 | The loop returns the entries of the elementary stream table |
| `PsDemux.ParseOnePes` | crates/codec/src/ps.rs:228-368 | The packet found behind headers and unknown start codes; its payload is a slice of the data and it uses up at least one byte |
| `PsDemux.PsDemuxer.Push` | crates/codec/src/ps.rs:44-54 | The buffer is extended; when it would exceed 4 MiB the oldest bytes go first |
| `PsDemux.PsDemuxer.NextPes` | crates/codec/src/ps.rs:59-100 | The call terminates, only drops bytes from the front, and a returned payload is a slice of the buffered bytes |
| `PsStream.TimestampRoundTrip` | crates/core/src/ps.rs:248-257 | The five time stamp bytes are decoded to the 33-bit value they were written from |
| `PsStream.HeaderIsSkipped` | crates/codec/src/ps.rs:59-100 | A complete header in front of the buffer is removed and its map learnt |
| `PsStream.PacketIsReturned` | crates/codec/src/ps.rs:228-368 | A complete written packet in front of the buffer is returned with its id, payload and time, whatever follows |
| `PsStream.PartialStays` | crates/codec/src/ps.rs:59-100 | An incomplete unit in front of the buffer is left as it is |
| `PsStream.AnyCutRoundTrips` | crates/codec/src/ps.rs:44-100 | Any list of written units, cut into any pieces, is drained to exactly its packets in order, and nothing is left |
| `PsStream.MuxedRunsRoundTrip` | crates/core/src/ps.rs:59-94 | From a new muxer on, whatever the cut of its output, the packets read fall into groups that join, frame by frame and in order, to the elementary stream of every frame that has one, under its stream and its time |
| `PsStream.FrameIsCarried` | crates/core/src/ps.rs:59-94 | The packets of one frame join to its whole elementary stream, under its stream id and its time times 90 modulo 2^33 |
| `PsStream.MapRoundTrips` | crates/core/src/ps.rs:212-229 | A written map is read back as the same stream ids and types in order, and its checksum is zero |
| `PsStream.DrainShrinks` | crates/codec/src/ps.rs:59-100 | On arbitrary bytes, draining only drops bytes from the front and every payload is a slice of what was buffered |
| `PsStream.PendingIsBounded` | crates/codec/src/ps.rs:44-104 | The buffer stays within 4 MiB over any pieces that do |
| `PsStream.PushKeepsBound` | crates/codec/src/ps.rs:44-54 | One push keeps the bound if and only if the pushed piece is within it; the piece itself is never cut |
| `Rtp.PacketsCarry` | crates/core/src/rtp.rs:98-108 | Version byte aside, every header field is read back as written, and the payload follows at byte 12 |
| `Rtp.RtpPacketizer.constructor` | crates/core/src/rtp.rs:46-65 | Payload type masked, clock rate at least one, payload limit clamped to 1..65523 |
| `Rtp.RtpPacketizer.Send` | crates/core/src/rtp.rs:98-108 | One packet is appended and the sequence number advances modulo 2^16 |
| `Rtp.RtpPacketizer.PacketizePayload` | crates/core/src/rtp.rs:76-92 | One packet per piece of at most the limit, numbered on from the last call, the last one marked |
| `Rtp.RtpPacketizer.PacketizeH264Nalu` | crates/core/src/rtp.rs:134-169 | A unit goes out whole or as FU-A fragments; needs room for one payload byte only if it must be split |
| `Rtp.RtpPacketizer.PacketizeH265Nalu` | crates/core/src/rtp.rs:171-208 | The same for the H.265 fragmentation unit; units shorter than their header are dropped |
| `Rtp.FragmentH264` | crates/core/src/rtp.rs:151-165 | The indicator, the header with its start and end bits, and the piece of the unit |
| `Rtp.FragmentH265` | crates/core/src/rtp.rs:184-203 | The two header bytes, the fragment header and the piece of the unit |
| `Rtp.RtpPacketizer.PacketizeVideo` | crates/core/src/rtp.rs:110-132 | The packets of one access unit; a frame that cannot be converted sends nothing and keeps the sequence number |
| `Rtp.RtpPacketizer.PacketizeAudio` | crates/core/src/rtp.rs:210-253 | At most one marked packet; an unsupported frame sends nothing |
| `Rtp.RtpPacketizer.Packetize` | crates/core/src/rtp.rs:67-73 | A frame of either kind or nothing for metadata; an error sends nothing and keeps the number |
| `Rtp.FragmentationEnds` | crates/core/src/rtp.rs:151-208 | The fragmentation loop reaches the end of a unit if and only if the payload limit leaves room for a fragment or nothing lies behind the NAL header |
| `Rtp.FragmentationCanStall` | crates/core/src/rtp.rs:151-170 | With a limit of two bytes the loop never moves: a concrete unit |
| `Rtp.AacUnitSize` | crates/core/src/rtp.rs:229-233 | The 13-bit access unit size is right if and only if the unit is shorter than 8192 bytes |
| `Rtp.AacUnitSizeCanWrap` | crates/core/src/rtp.rs:229-233 | A frame of 8192 bytes announces size zero: a concrete input |
| `RtpStream.PacketsAreReadBack` | crates/core/src/rtp.rs:98-108 | Payloads, markers and consecutive sequence numbers of a list of packets as a receiver reads them |
| `RtpStream.FragmentShape` | crates/core/src/rtp.rs:134-208 | A fragmented unit takes at least two packets; only the first has the start bit, only the last the end bit, none exceeds the limit |
| `RtpStream.FragmentsReassemble` | crates/core/src/rtp.rs:134-208 | By the receiver rules of RFC 6184 and RFC 7798 the fragments join to the unit, header bits included |
| `RtpStream.AccessUnitReassembles` | crates/core/src/rtp.rs:110-208 | A receiver gets exactly the kept units in order if and only if each unit sent whole has a type that stands for a whole unit: 1 to 23 in H.264, none of 48 to 50 in H.265 |
| `RtpStream.UnitCanBeLost` | crates/core/src/rtp.rs:110-150 | A short H.264 unit of type 28 is taken for a fragment: a concrete input |
| `RtpStream.AccessUnitShape` | crates/core/src/rtp.rs:110-208 | No payload exceeds the limit; the marker is on the last packet, and only if the last unit was not dropped |
| `RtpStream.MarkerCanBeMissing` | crates/core/src/rtp.rs:171-180 | A one-byte last H.265 unit is dropped with the marker: a concrete access unit |
| `RtpStream.FramePacketsCarry` | crates/core/src/rtp.rs:76-92 | The pieces add up to the payload, none is empty or too long, only the last is marked |
| `RtpStream.SendRunCarries` | crates/core/src/rtp.rs:744-765 | Over every run the sequence numbers are consecutive modulo 2^16 and the payloads join to all program stream bytes |
| `RtpStream.PsOverRtp` | crates/core/src/rtp.rs:744-765 | Muxing every frame, sending it over RTP, stripping the headers and demuxing returns, frame by frame and in order, the elementary stream of every frame that has one, with its stream and its time |
| `RtpRun.RunIsNumbered` | crates/core/src/rtp.rs:67-73 | Over every run of video, audio and failing frames the sequence numbers are consecutive modulo 2^16 |
| `RtpRun.RunIsReassembled` | crates/core/src/rtp.rs:67-243 | Frame by frame over every run, a receiver gets the kept units of a video frame if and only if each one sent whole has the type of a whole unit; an audio frame is one marked packet with its payload; every packet carries the frame's time |
| `RtpRun.VideoDepacketizer.constructor` | crates/rtsp/src/session.rs:1571-1606 | Nothing pending and no fragment under way |
| `RtpRun.VideoDepacketizer.TakeAggregate` | crates/rtsp/src/session.rs:1657-1671 | The units of an aggregation packet, each behind its 16-bit length |
| `RtpRun.VideoDepacketizer.TakeFragmentOf` | crates/rtsp/src/session.rs:1672-1700 | A fragment starts, extends or completes a unit; one out of place changes nothing |
| `RtpRun.VideoDepacketizer.HandleVideoRtp` | crates/rtsp/src/session.rs:1637-1768 | Every payload kind of both codecs; a marker hands out the pending units |
| `RtpRun.VideoDepacketizer.HandleRtp` | crates/rtsp/src/session.rs:1608-1635 | The header is stripped and packets without a payload are ignored |
| `RtpRun.RunIsGrouped` | crates/rtsp/src/session.rs:1608-1768 | Packetizing any run of a video track and feeding every packet to the depacketizer groups the kept units into frames, an access unit that ends in a dropped unit running into the next |
| `RtpRun.RunIsReceived` | crates/rtsp/src/session.rs:1608-1768 | Then each frame comes back as one frame with exactly its kept units, in order; for H.264 without further condition |
| `RtpRun.EveryUnitArrives` | crates/rtsp/src/session.rs:1608-1768 | Over every run the depacketizer receives exactly the kept units of all frames, in order, if and only if each unit sent whole has a type it takes for a whole unit |
| `RtpRun.UnitCanBeSplit` | crates/rtsp/src/session.rs:1657-1671 | A unit of type 24 is taken apart: a concrete input |
| `RtpRun.VideoTimeReturns` | crates/rtsp/src/session.rs:1803-1803 | The time of a video frame comes back if and only if 90 times it is below 2^32 |
| `RtpRun.VideoTimeCanWrap` | crates/rtsp/src/session.rs:1803-1803 | A time that comes back as zero: a concrete input |
| `RtpRun.HandleAudioRtp` | crates/rtsp/src/session.rs:1916-1967 | The access units of an audio payload by the sizes in their headers, as far as the data goes |
| `RtpRun.AacRunIsReceived` | crates/rtsp/src/session.rs:1916-1967 | Over every run the packet of an AAC frame gives exactly that frame if and only if it has fewer than 8192 bytes |
| `Gop.GopCache.constructor` | crates/core/src/gop_cache.rs:20-28 | A new cache stands for an empty history |
| `Gop.GopCache.Clear` | crates/core/src/gop_cache.rs:30-35 | A cleared cache stands for an empty history |
| `Gop.GopCache.CacheFrame` | crates/core/src/gop_cache.rs:37-68 | The cache stands for the history with the frame appended: latest metadata and configurations, and a deque that covers the last group of pictures |
| `Gop.GopCache.GetLatestGopFrames` | crates/core/src/gop_cache.rs:102-129 | Exactly the latest metadata, video and audio configuration and every media frame from the last video key frame on, over the whole history |
| `Gop.GopCache.GetConfigFrames` | crates/core/src/gop_cache.rs:91-100 | The latest video and audio configuration |
| `Gop.GopCache.GetAllFrames` | crates/core/src/gop_cache.rs:70-89 | The same with at most 29 older frames in front of the group once there is a key frame |
| `MediaGraph.RunKeeps` | crates/core/src/media_source.rs:404-433 | In every interleaving each cached frame is held by one publisher or sent once, and a subscriber has received its snapshot and then the log from its position on |
| `MediaGraph.LostExactly` | crates/core/src/media_source.rs:378-433 | In either joining order, a frame cached after the snapshot is lost if and only if it was sent before the subscription |
| `MediaGraph.NoGap` | crates/core/src/sdk.rs:50-64 | A subscriber that subscribes before its snapshot receives the snapshot and every later frame, for any number of publishers, unless it lags or the source closes |
| `MediaGraph.EveryFrameFromTheKeyArrives` | crates/core/src/sdk.rs:50-64 | Every media frame from the snapshot's key frame on is delivered, at the place of the snapshot or of the message that belongs to it |
| `MediaGraph.PlacesDiffer` | crates/core/src/sdk.rs:50-64 | No place serves two media frames, so equal frames are delivered as often as they were cached |
| `MediaGraph.LiveContinuesSnapshot` | crates/core/src/sdk.rs:131-136 | With one publisher the live part is the history from a point no later than right behind the snapshot |
| `MediaGraph.SnapshotFirstCanLose` | crates/http/src/session.rs:337-347 | The other order, as the HTTP-FLV player uses it, loses a frame in a concrete run |
| `ProxyHistory.AddIsAtomic` | crates/core/src/stream_proxy.rs:86-117 | In every interleaving an add that returned success made exactly one insertion, and exactly one command carries its token, key and address; one that returned failure left no command and no entry |
| `ProxyTable.EntriesAreCommanded` | crates/core/src/stream_proxy.rs:86-130 | Every entry carries its own insertion's token, has a command unless its add is still in flight, and was never told to stop |
| `ProxyHistory.EntryLeavesExactly` | crates/core/src/stream_proxy.rs:100-130 | In every run an entry leaves the table exactly by a removal of its key, by the end of its own task or by the roll-back of the caller that inserted it |
| `ProxyHistory.CleanupTakesOwn` | crates/core/src/media_source.rs:606-620 | In every run the clean-up of a pull stops and removes the pull's own entry if and only if nobody has inserted one for that stream since |
| `ProxyHistory.CleanupHasOwn` | crates/core/src/media_source.rs:606-620 | A pull that cleans up has inserted an entry before, so the condition decides every clean-up |
| `ProxyTable.SingleFlight` | crates/core/src/media_source.rs:561-621 | At most one caller per stream is behind the origin lock |
| `ProxyTable.PullTriesInOrder` | crates/core/src/media_source.rs:606-620 | Origins are tried in list order; a pull that ends without a source has tried all and leaves none of its entries |
| `ProxyTable.CleanupCanTakeAnother` | crates/core/src/media_source.rs:606-620 | The clean-up of a pull can take another caller's entry: a concrete interleaving |
| `Boxes.Scan` | crates/mp4/src/fragmented_demuxer.rs:47-72 | The loop returns the boxes side by side, or an error if a size cannot be right |
| `Boxes.SizeCheckAgrees` | crates/mp4/src/fragmented_demuxer.rs:60-62 | The size check in 64-bit arithmetic agrees with the unbounded one if and only if the sum does not wrap into the range |
| `Boxes.EncodedIsRead` | crates/mp4/src/fragmented_demuxer.rs:47-72 | Boxes written side by side are found again in order, wherever they lie |
| `Boxes.BoxLiesAt` | crates/mp4/src/fmp4.rs:634-641 | Each written box and its body lie where its view says |
| `Fmp4Mux.BuildTraf` | crates/mp4/src/fmp4.rs:568-618 | The loop builds header, decode time and run of a track fragment |
| `Fmp4Mux.BuildMdat` | crates/mp4/src/fmp4.rs:620-629 | The media data is the samples of both tracks, video first |
| `Fmp4Mux.BuildMoof` | crates/mp4/src/fmp4.rs:531-566 | The fragment header with one fragment per track that has samples |
| `Fmp4Mux.MoofIsSized` | crates/mp4/src/fmp4.rs:515-523 | The length of the fragment header does not depend on the offset written into it |
| `Fmp4Mux.BuildMediaSegment` | crates/mp4/src/fmp4.rs:496-529 | Because both passes have one length, the written offset points at the media data |
| `Fmp4Demux.ReadRun` | crates/mp4/src/fragmented_demuxer.rs:381-507 | The sample loop, for every combination of flags, against its step function |
| `Fmp4Demux.DemuxTraf` | crates/mp4/src/fragmented_demuxer.rs:322-509 | All runs of a track fragment, with the defaults of its header |
| `Fmp4Demux.Demux` | crates/mp4/src/fragmented_demuxer.rs:299-320 | All fragments of a segment, merged by decode time and track |
| `Fmp4Stream.TrafIsRead` | crates/mp4/src/fragmented_demuxer.rs:322-509 | A written track fragment is read as exactly its samples |
| `Fmp4Stream.SegmentRoundTrip` | crates/mp4/src/fmp4.rs:496-529 | A written segment is read as the samples of both tracks, merged |
| `Fmp4Stream.SortSorts` | crates/mp4/src/fragmented_demuxer.rs:318-319 | The merge is sorted and holds exactly the input |
| `Fmp4Stream.SortKeepsTrack` | crates/mp4/src/fragmented_demuxer.rs:318-319 | The merge does not reorder a track that is in order |
| `Fmp4Stream.FramesCarry` | crates/mp4/src/fragmented_demuxer.rs:468-503 | The frames of a track carry its sample bytes and sync flags in order |
| `Fmp4Stream.DecodeTime` | crates/mp4/src/fragmented_demuxer.rs:468-503 | A decode time is the start plus all earlier durations times 1000 over the timescale, rounded down |
| `Fmp4Stream.SegmentKeepsTracks` | crates/mp4/src/fmp4.rs:496-629 | Track by track a reader gets exactly the written samples, and the whole is in order |
| `Fmp4Run.Fmp4Muxer.constructor` | crates/mp4/src/fmp4.rs:65-85 | A new muxer is empty |
| `Fmp4Run.Fmp4Muxer.PushFrame` | crates/mp4/src/fmp4.rs:89-166 | Configurations are captured, samples queued, and the total duration only grows |
| `Fmp4Run.Fmp4Muxer.FlushSegment` | crates/mp4/src/fmp4.rs:182-210 | The queued samples become one segment and the queues are emptied |
| `Fmp4Run.RunConserves` | crates/mp4/src/fmp4.rs:89-210 | Over every run flushed samples followed by queued ones are the accepted ones in order; segments are numbered 0, 1, 2 and each starts exactly where the last ended |
| `Fmp4Run.RunRoundTrip` | crates/mp4/src/fmp4.rs:89-210 | For every run a reader that knows the tracks in use gets back the bytes and sync flags of every accepted sample no longer pending, track by track and in order, whatever the segments, with decode times that are the segment start plus the durations before |
| `Fmp4Init.DescriptorLength` | crates/mp4/src/fragmented_demuxer.rs:91-102 | Seven bits a byte, at most four bytes |
| `Fmp4Init.ExtractAsc` | crates/mp4/src/fragmented_demuxer.rs:104-136 | The loop against its specification |
| `Fmp4Init.Open` | crates/mp4/src/fragmented_demuxer.rs:144-243 | All tracks of the movie box, or an error |
| `Fmp4InitStream.ChildIs` | crates/mp4/src/fragmented_demuxer.rs:74-89 | The first child of its kind is found and shows what was written |
| `Fmp4InitStream.EsdsRoundTrip` | crates/mp4/src/fmp4.rs:727-764 | An AAC configuration is read back if and only if it has none or two to five bytes |
| `Fmp4InitStream.EsdsCanLose` | crates/mp4/src/fmp4.rs:727-764 | A configuration of six bytes is lost: a concrete input |
| `Fmp4InitStream.EntryIsRead` | crates/mp4/src/fmp4.rs:656-783 | A sample entry gives back codec, channels and configuration |
| `Fmp4InitStream.TrakIsRead` | crates/mp4/src/fmp4.rs:329-492 | A track box gives back number, clock, picture size and configuration through the nested boxes |
| `Fmp4InitStream.InitRoundTrip` | crates/mp4/src/fmp4.rs:226-492 | Every track of the writer is read back |
| `Fmp4InitStream.StreamRoundTrip` | crates/mp4/src/fmp4.rs:89-492 | From end to end: a reader opened with the written initialisation segment gets back those samples of every track, with those times |
| `Fmp4InitStream.ConfigSurvives` | crates/mp4/src/fmp4.rs:656-764 | The configuration bytes survive: always for video records, for AAC exactly at those lengths |
| `SampleTable.ParseStts` | crates/mp4/src/demuxer.rs:744-772 | Accepted exactly if the run lengths add up to the sample count; then the expanded durations |
| `SampleTable.ParseStsc` | crates/mp4/src/demuxer.rs:776-798 | Accepted exactly if the table fits; then its entries |
| `SampleTable.ParseStsz` | crates/mp4/src/demuxer.rs:800-824 | A fixed size repeated, or the table, under its exact acceptance condition |
| `SampleTable.ParseWords` | crates/mp4/src/demuxer.rs:826-841 | Accepted exactly if the table fits; then its words |
| `SampleTable.ParseCo64` | crates/mp4/src/demuxer.rs:843-867 | Accepted exactly if the table fits; then its 64-bit words |
| `SampleTable.EntryForChunk` | crates/mp4/src/demuxer.rs:404-412 | In a well-formed table a chunk follows the one entry whose range contains it |
| `SampleTable.SyncIsMembership` | crates/mp4/src/demuxer.rs:439-443 | In a sorted table the search decides membership |
| `SampleTable.Ticks` | crates/mp4/src/demuxer.rs:393-399 | Each sample starts at the sum of the durations before it |
| `SampleTable.Resolve` | crates/mp4/src/demuxer.rs:401-456 | Every sample the chunks cover lies at its chunk offset plus the sizes before it in that chunk; an error exactly if one ends beyond the address space |
| `SampleTable.ChunksAreRead` | crates/mp4/src/demuxer.rs:401-456 | A file that holds its samples in chunks as the tables say is read back: one sample for each stored one, in order and with its bytes |
| `SampleTable.StoredNeverOverflows` | crates/mp4/src/demuxer.rs:420-425 | For such a file no sum of offsets and sizes overflows |
| `SampleTable.ReadTables` | crates/mp4/src/demuxer.rs:365-391 | All tables from the bytes of their boxes, or an error if one is missing or does not fit |
| `SampleTable.ReadTrack` | crates/mp4/src/demuxer.rs:365-456 | From the bytes of the boxes to the samples: an error exactly if a table cannot be read or a sample ends beyond the address space; if the tables describe chunks the file holds, exactly those samples |
| `SampleTable.TimesAreExact` | crates/mp4/src/demuxer.rs:435-438 | Times are the exact quotient and never go back while they fit 32 bits |
| `Ts.CopyInto` | crates/hls/src/muxer.rs:517-531 | Bytes are written over the packet from a position on, as far as there is room |
| `Ts.WritePacketWith` | crates/hls/src/muxer.rs:491-534 | The filled array is header, adaptation field and payload; the counter advances modulo 16 |
| `Ts.WritePacket` | crates/hls/src/muxer.rs:479-489 | The same without an adaptation field |
| `Ts.WritePesPackets` | crates/hls/src/muxer.rs:394-477 | The packets of a PES packet are appended and the counter advances by their number |
| `Ts.PacketIsRead` | crates/hls/src/muxer.rs:491-534 | PID, start flag, counter, random access flag and payload are read back |
| `Ts.PesIsRead` | crates/hls/src/muxer.rs:394-477 | The payloads join to exactly the PES packet, every packet has 188 bytes, only the first starts it, the counter runs on |
| `Ts.RandomAccessFlag` | crates/hls/src/muxer.rs:409-434 | The first packet announces random access exactly if asked to and the padding is not one to seven bytes |
| `Ts.RandomAccessCanBeLost` | crates/hls/src/muxer.rs:409-434 | A key frame of 180 PES bytes is not announced: a concrete input |
| `LiveTs.PtsIsEncoded` | crates/hls/src/muxer.rs:536-542 | The time stamp bytes depend on 33 bits only and are those of the program stream writer |
| `LiveTs.DataPesRoundTrip` | crates/hls/src/muxer.rs:321-335 | A reader gets the frame and its time back if and only if it has at most 65527 bytes |
| `LiveTs.DataPesCanFail` | crates/hls/src/muxer.rs:321-335 | A frame of 65528 bytes does not come back: a concrete input |
| `LiveTs.ConfigPesRoundTrip` | crates/hls/src/muxer.rs:308-319 | A reader gets a configuration back, without a time, if and only if it has at most 65532 bytes |
| `LiveTs.AdtsRoundTrip` | crates/hls/src/muxer.rs:337-359 | The frame is stripped back; the length field is right if and only if the whole is below 8192 bytes, and the configuration comes back if and only if its object type is one to four with fewer than eight channels |
| `LiveTs.AdtsCanFail` | crates/hls/src/muxer.rs:337-359 | A configuration of object type five does not come back: a concrete input |
| `LiveTs.TsWriter.constructor` | crates/hls/src/muxer.rs:38-46 | All counters start at zero |
| `LiveTs.TsWriter.WritePatPmt` | crates/hls/src/muxer.rs:48-88 | The two tables with their checksums; each counter advances by one |
| `LiveTs.TsWriter.WritePes` | crates/hls/src/muxer.rs:90-109 | The packets of a PES packet on its PID; only that PID's counter advances |
| `LiveTs.TsLiveMuxer.constructor` | crates/hls/src/live_ts.rs:34-44 | Nothing learnt, nothing sent |
| `LiveTs.TsLiveMuxer.Learn` | crates/hls/src/live_ts.rs:51-65 | Codec and configuration are captured; a new configuration becomes pending |
| `LiveTs.TsLiveMuxer.PushVideo` | crates/hls/src/live_ts.rs:78-102 | A pending configuration and then the frame |
| `LiveTs.TsLiveMuxer.PushAudio` | crates/hls/src/live_ts.rs:103-120 | A pending configuration and then the frame |
| `LiveTs.TsLiveMuxer.PushFrame` | crates/hls/src/live_ts.rs:48-125 | The bytes are the packets of the tables, the configuration and the frame that are due |
| `LiveTs.RunKeepsOrder` | crates/hls/src/live_ts.rs:48-125 | Over every run the tables come first and exactly once, and the state is the latest captured configuration |
| `LiveTs.ConfigBeforeMedia` | crates/hls/src/live_ts.rs:48-125 | Right before a media frame the latest configuration put out is the latest one captured |
| `TsStream.RunIsContinuous` | crates/hls/src/live_ts.rs:48-125 | Over every run the output is whole packets and the k-th packet of each PID carries k modulo 16 |
| `TsStream.MediaIsRecovered` | crates/hls/src/muxer.rs:321-335 | Stripping, joining and parsing the packets of a frame that fits returns the frame and its time |
| `TsStream.RunIsRecovered` | crates/hls/src/live_ts.rs:48-125 | Over every run, selecting a PID and grouping by the start flag gives one PES packet per unit of that stream, in order, and parsing it returns the unit if and only if its length field does not wrap |
| `TsStream.TablesCheck` | crates/hls/src/muxer.rs:48-88 | Both table packets carry a section of the announced length whose checksum a receiver finds right |
| `TsStream.TablesDescribe` | crates/hls/src/muxer.rs:48-88 | From the packets a receiver reads the PID of the map, the clock and exactly the two streams with their types |
| `Flv.FlvMuxer.WriteHeader` | crates/flv/src/muxer.rs:17-26 | The nine header bytes and the first back pointer |
| `Flv.FlvMuxer.WriteTag` | crates/flv/src/muxer.rs:28-62 | The tag of the frame, or an error exactly if its payload cannot be built |
| `Flv.FlvDemuxer.Feed` | crates/flv/src/demuxer.rs:15-17 | The data is appended |
| `Flv.FlvDemuxer.ParseHeader` | crates/flv/src/demuxer.rs:19-43 | The header is removed exactly if it is there |
| `Flv.FlvDemuxer.NextFrame` | crates/flv/src/demuxer.rs:45-146 | The loop uses up gaps and foreign tags and stops at the first frame or at incomplete data |
| `Flv.TurnOfUnit` | crates/flv/src/demuxer.rs:45-146 | A unit that is not complete waits; a complete one is used up with its frame |
| `Flv.DrainPrefix` | crates/flv/src/demuxer.rs:45-146 | Draining a prefix of a stream uses up exactly the complete units |
| `Flv.AnyCutRoundTrips` | crates/flv/src/demuxer.rs:15-146 | Header and tags cut in any way give the frames of the tags in order, and nothing is left |
| `Flv.VideoSurvives` | crates/core/src/payload.rs:233-272 | A video frame keeps codec, flags, time modulo 2^24 and sample, and its presentation time if the distance fits signed 24 bits |
| `Flv.AudioSurvives` | crates/core/src/payload.rs:273-308 | An audio frame keeps codec, time modulo 2^24 and, for AAC, configuration flag and payload |
| `Flv.StreamRoundTrip` | crates/flv/src/muxer.rs:17-62 | Any list of frames written as header and tags and fed in any pieces comes back frame by frame |
| `Vod.StartIsKey` | crates/mp4/src/vod.rs:98-130 | The start is the latest key frame not after the request, or the first key frame listed if there is none |
| `Vod.SeekIsIdempotent` | crates/mp4/src/vod.rs:98-159 | Asking for the chosen start again plays the same, for every recording and request |
| `Vod.SeekIsMonotone` | crates/mp4/src/vod.rs:98-130 | A later request starts no earlier if and only if a frame to start at comes by the earlier request, or none by the later one, or the first one listed does |
| `Vod.OrderedSeekIsMonotone` | crates/mp4/src/vod.rs:98-130 | In a recording in order of time a later request never starts earlier |
| `Vod.SeekCanGoBack` | crates/mp4/src/vod.rs:98-130 | Key frames at 10 and then 5: request 3 starts at 10 and request 6 at 5 |
| `Vod.FromIs` | crates/mp4/src/vod.rs:132-143 | Played are exactly the places of the recording with media at or after the start, each once and in order, behind exactly the configuration frames |
| `Vod.RebaseIsExact` | crates/mp4/src/vod.rs:139-152 | No time saturates: adding the start back gives each frame as recorded |
| `Vod.KeyIsPlayed` | crates/mp4/src/vod.rs:98-159 | The key frame the start was chosen for is played at time zero |

## Left out

- HTTP, WebSocket, RTMP, RTSP, SRT and WebRTC sessions, hooks, recorders, configuration, sockets, TLS and timers: input and output, not container logic.
- The server's RTP sender management, subscriber bookkeeping and traffic counters: they add only easy members.
- Segmenting of HLS playlists and the HLS demuxer.
- Writing of classic MP4 files, the box walk around the sample tables, and the interleaving of classic MP4 tracks by time.
- SPS parsing, G.711 and AAC bit-level decoding, and the NAL extraction from PES payloads.
- Rendering of origin addresses from templates: addresses are compared only for equality.
- Direct publishing without the cache, and the rounding of the broadcast capacity to a power of two.
- Statistics fields of the fragmented MP4 writer, and the presentation time of audio in fragments, whose start is in video ticks.
- Payload configuration records (`video_config_annex_b` and the record readers of the HLS writer) are recursive functions where the source has loops.
- PsMuxer.PsMuxer.MuxFrame: `pts` and `dts` are taken as given, so their relation to capture time is not modelled.
- RtpStream.AccessUnitReassembles: the receiver rejects payload structures the packetizer never writes, such as aggregation packets, instead of taking them apart.
- MediaGraph.NoGap: speaks of one subscriber; others do not change what it receives.
- SampleTable.SyncIsMembership: the library's binary search is modelled as a halving search; its result on an unsorted table is not promised by the library.
- LiveTs.TsLiveMuxer.PushFrame: the clock reference is computed modulo 2^64 and its value is not related to the media time.
- Fmp4Run.Fmp4Muxer.FlushSegment: the segment number is unbounded; the 64-bit counter of the source is not.
- Flv.StreamRoundTrip: metadata tags are written but the reader skips them, so they are not part of the list.
- Boxes.Scan: the sum of an offset and a 64-bit size does not wrap in the model; `Boxes.SizeCheckAgrees` states exactly for which sizes that makes no difference.
- Rtp.RtpPacketizer.PacketizeH265Nalu: a payload limit of one with a unit of two bytes is excluded with the other limits that leave no room for a fragment, although the loop then ends at once and sends nothing.
- RtpRun.VideoDepacketizer.HandleVideoRtp: the units handed out at a marker are modelled, not the frames and configuration records built from them, nor the parameter sets and key flags noted on the way.
- RtpRun.HandleAudioRtp: the access units are modelled, not their wrapping into frames with spaced times.
