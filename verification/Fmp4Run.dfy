/** Whole runs of the fragmented MP4 writer (crates/mp4/src/fmp4.rs, `push_frame` and `flush_segment`). */
module Fmp4Run {
  import opened Bytes
  import opened Frames
  import opened Boxes
  import opened Payload
  import opened Gop
  import opened Fmp4Mux
  import opened Fmp4Demux
  import opened Fmp4Stream

  datatype Config = Config(codec: CodecId, data: bytes)

  datatype Mux = Mux(
    timescale: u32, videoConfig: Option<Config>, audioConfig: Option<Config>,
    video: seq<Sample>, audio: seq<Sample>, base: Option<u32>, sequence: nat, start: nat, total: nat)

  datatype Segment = Segment(sequence: nat, start: nat, duration: nat, data: bytes)

  function New(timescale: u32): Mux {
    Mux(timescale, None, None, [], [], None, 0, 0, 0)
  }

  predicate IsConfig(f: MediaFrame) {
    f.configFrame || IsConfigFrame(f)
  }

  /** The configuration a config frame leaves behind, if it can be read. */
  function ConfigOf(f: MediaFrame): Result<bytes> {
    match f.frameType
    case Video => VideoDecoderConfig(f)
    case Audio => if f.codec == AAC then AacAsc(f) else Ok(f.data)
    case Metadata => Err(Unsupported)
  }

  function SampleData(f: MediaFrame): Result<bytes> {
    if f.frameType == Video then VideoSampleLengthPrefixed(f)
    else if f.frameType == Audio && f.codec == AAC then AacRawPayload(f)
    else Ok(f.data)
  }

  function Based(m: Mux, f: MediaFrame): Mux {
    if m.base.None? then m.(base := Some(f.timestamp)) else m
  }

  /** The sample a frame becomes when the first frame of the stream had time `base`. */
  function SampleOf(timescale: u32, base: u32, f: MediaFrame): Option<Sample> {
    if IsConfig(f) || SampleData(f).Err? then None
    else Some(Sample(SampleData(f).value, SatSub(f.timestamp, base), timescale / 25, f.keyFrame))
  }

  function Max(a: nat, b: nat): nat {
    if a < b then b else a
  }

  /** One call of `push_frame`. */
  function Pushed(m0: Mux, f: MediaFrame): (r: Mux)
    ensures m0.start <= m0.total ==> r.start <= r.total
  {
    var m := Based(m0, f);
    if IsConfig(f) then
      match ConfigOf(f)
      case Err(_) => m
      case Ok(c) =>
        if f.frameType == Video then m.(videoConfig := Some(Config(f.codec, c)))
        else m.(audioConfig := Some(Config(f.codec, c)))
    else
      match SampleOf(m.timescale, m.base.value, f)
      case None => m
      case Some(s) =>
        var end := s.timestamp * m.timescale / 1000 + s.duration;
        var t := m.(total := Max(m.total, end));
        if f.frameType == Video then t.(video := t.video + [s])
        else if f.frameType == Audio then t.(audio := t.audio + [s])
        else t
  }

  /** One call of `flush_segment`. */
  function Flushed(m: Mux): Option<Segment> {
    if m.video == [] && m.audio == [] then None
    else
      Some(Segment(m.sequence, m.start, SatSub(m.total, m.start),
                   Encoded(SegmentNodes(m.sequence, m.start, m.video, m.audio))))
  }

  function AfterFlush(m: Mux): Mux {
    if m.video == [] && m.audio == [] then m
    else m.(sequence := m.sequence + 1, start := m.total, video := [], audio := [])
  }

  class Fmp4Muxer {
    const timescale: u32
    var videoConfig: Option<Config>
    var audioConfig: Option<Config>
    var videoSamples: seq<Sample>
    var audioSamples: seq<Sample>
    var baseTimestamp: Option<u32>
    var segmentSeq: nat
    var segmentStart: nat
    var totalDuration: nat

    function Value(): Mux
      reads this
    {
      Mux(timescale, videoConfig, audioConfig, videoSamples, audioSamples, baseTimestamp,
          segmentSeq, segmentStart, totalDuration)
    }

    constructor (timescale: u32)
      ensures Value() == New(timescale)
    {
      this.timescale := timescale;
      videoConfig, audioConfig := None, None;
      videoSamples, audioSamples := [], [];
      baseTimestamp := None;
      segmentSeq, segmentStart, totalDuration := 0, 0, 0;
    }

    method PushFrame(f: MediaFrame)
      modifies this
      ensures Value() == Pushed(old(Value()), f)
    {
      hide IsConfigFrame, VideoDecoderConfig, AacAsc, VideoSampleLengthPrefixed, AacRawPayload;
      if baseTimestamp.None? {
        baseTimestamp := Some(f.timestamp);
      }
      if f.configFrame || IsConfigFrame(f) {
        match f.frameType {
          case Video =>
            var config := VideoDecoderConfig(f);
            if config.Err? { return; }
            videoConfig := Some(Config(f.codec, config.value));
          case Audio =>
            var config := Ok(f.data);
            if f.codec == AAC {
              config := AacAsc(f);
              if config.Err? { return; }
            }
            audioConfig := Some(Config(f.codec, config.value));
          case Metadata =>
        }
        return;
      }
      var relative := SatSub(f.timestamp, baseTimestamp.value);
      var duration := timescale / 25;
      var data := SampleData(f);
      if data.Err? { return; }
      var sample := Sample(data.value, relative, duration, f.keyFrame);
      match f.frameType {
        case Video => videoSamples := videoSamples + [sample];
        case Audio => audioSamples := audioSamples + [sample];
        case Metadata =>
      }
      var end := relative * timescale / 1000 + duration;
      totalDuration := Max(totalDuration, end);
    }

    method FlushSegment() returns (r: Option<Segment>)
      modifies this
      ensures Value() == AfterFlush(old(Value())) && r == Flushed(old(Value()))
    {
      hide SegmentNodes, Encoded;
      if videoSamples == [] && audioSamples == [] {
        return None;
      }
      var sequence := segmentSeq;
      segmentSeq := segmentSeq + 1;
      var start := segmentStart;
      var duration := SatSub(totalDuration, start);
      var data := BuildMediaSegment(sequence, start, videoSamples, audioSamples);
      segmentStart := totalDuration;
      videoSamples, audioSamples := [], [];
      return Some(Segment(sequence, start, duration, data));
    }
  }

  // ---- runs ----

  datatype Op = Push(frame: MediaFrame) | Flush

  /** A flushed segment together with the samples that went into it. */
  datatype Batch = Batch(segment: Segment, video: seq<Sample>, audio: seq<Sample>)

  datatype Ran = Ran(mux: Mux, out: seq<Batch>)

  function RunStep(m: Mux, op: Op): Ran {
    match op
    case Push(f) => Ran(Pushed(m, f), [])
    case Flush =>
      Ran(AfterFlush(m), if Flushed(m).None? then [] else [Batch(Flushed(m).value, m.video, m.audio)])
  }

  function RunAll(m: Mux, ops: seq<Op>): Ran
    decreases |ops|
  {
    if ops == [] then Ran(m, [])
    else
      var one := RunStep(m, ops[0]);
      var rest := RunAll(one.mux, ops[1..]);
      Ran(rest.mux, one.out + rest.out)
  }

  /** What one operation adds to the accepted samples of a kind. */
  function Added(m: Mux, op: Op, kind: FrameType): seq<Sample> {
    if op.Push? && op.frame.frameType == kind then
      var s := SampleOf(m.timescale, Based(m, op.frame).base.value, op.frame);
      if s.Some? then [s.value] else []
    else []
  }

  /** The samples accepted from a list of operations, in order. */
  function Accepted(m: Mux, ops: seq<Op>, kind: FrameType): seq<Sample>
    decreases |ops|
  {
    if ops == [] then []
    else Added(m, ops[0], kind) + Accepted(RunStep(m, ops[0]).mux, ops[1..], kind)
  }

  function Videos(out: seq<Batch>): seq<Sample> {
    if out == [] then [] else out[0].video + Videos(out[1..])
  }

  function Audios(out: seq<Batch>): seq<Sample> {
    if out == [] then [] else out[0].audio + Audios(out[1..])
  }

  /** Segments are numbered from `m.sequence` on and tile the time line from `m.start` on. */
  predicate Chained(out: seq<Batch>, sequence: nat, start: nat) {
    if out == [] then true
    else
      && out[0].segment.sequence == sequence && out[0].segment.start == start
      && Chained(out[1..], sequence + 1, start + out[0].segment.duration)
  }

  ghost predicate Faithful(b: Batch) {
    && (b.video != [] || b.audio != [])
    && b.segment.data == Encoded(SegmentNodes(b.segment.sequence, b.segment.start, b.video, b.audio))
  }

  lemma {:induction false} PushedSamples(m: Mux, f: MediaFrame)
    ensures var p := Pushed(m, f);
            && p.sequence == m.sequence && p.start == m.start && p.timescale == m.timescale
            && p.video == m.video + Added(m, Push(f), Video)
            && p.audio == m.audio + Added(m, Push(f), Audio)
  {
    hide SampleData, ConfigOf, IsConfigFrame;
  }

  /** Every run: nothing is lost, duplicated or reordered, and the segments tile the time line exactly. */
  lemma {:induction false} RunConserves(m: Mux, ops: seq<Op>)
    requires m.start <= m.total
    ensures var r := RunAll(m, ops);
            && Videos(r.out) + r.mux.video == m.video + Accepted(m, ops, Video)
            && Audios(r.out) + r.mux.audio == m.audio + Accepted(m, ops, Audio)
            && Chained(r.out, m.sequence, m.start)
    decreases |ops|
  {
    hide Pushed, SampleOf, Encoded, SegmentNodes;
    if ops == [] {
      assert [] + m.video == m.video + [] && [] + m.audio == m.audio + [];
    } else {
      var one := RunStep(m, ops[0]);
      var rest := RunAll(one.mux, ops[1..]);
      RunConserves(one.mux, ops[1..]);
      match ops[0]
      case Push(f) =>
        PushedSamples(m, f);
        assert [] + rest.out == rest.out;
        PushConserves(m, ops, Video, one.mux.video, m.video);
        PushConserves(m, ops, Audio, one.mux.audio, m.audio);
      case Flush => FlushConserves(m, ops);
    }
  }

  lemma {:induction false} PushConserves(m: Mux, ops: seq<Op>, kind: FrameType, after: seq<Sample>, before: seq<Sample>)
    requires ops != [] && after == before + Added(m, ops[0], kind)
    ensures after + Accepted(RunStep(m, ops[0]).mux, ops[1..], kind) == before + Accepted(m, ops, kind)
  {
    hide RunStep, Added;
    Assoc(before, Added(m, ops[0], kind), Accepted(RunStep(m, ops[0]).mux, ops[1..], kind));
  }

  lemma {:induction false} FlushRuns(m: Mux, ops: seq<Op>)
    requires ops != [] && ops[0] == Flush
    ensures var rest := RunAll(AfterFlush(m), ops[1..]);
            RunAll(m, ops)
            == Ran(rest.mux, (if Flushed(m).None? then [] else [Batch(Flushed(m).value, m.video, m.audio)]) + rest.out)
  {
    hide Flushed, AfterFlush;
  }

  lemma {:induction false} FlushAccepts(m: Mux, ops: seq<Op>, kind: FrameType)
    requires ops != [] && ops[0] == Flush
    ensures Accepted(m, ops, kind) == Accepted(AfterFlush(m), ops[1..], kind)
  {
    hide Flushed, AfterFlush;
    assert Accepted(m, ops, kind) == [] + Accepted(AfterFlush(m), ops[1..], kind);
  }

  lemma {:induction false} FlushFields(m: Mux)
    requires m.start <= m.total
    ensures Flushed(m).None? ==> AfterFlush(m) == m
    ensures Flushed(m).Some? ==>
              && AfterFlush(m).video == [] && AfterFlush(m).audio == []
              && AfterFlush(m).sequence == m.sequence + 1 && AfterFlush(m).start == m.total
              && Flushed(m).value.sequence == m.sequence && Flushed(m).value.start == m.start
              && Flushed(m).value.duration == m.total - m.start
  {
    hide Encoded, SegmentNodes;
  }

  lemma {:induction false} OneBatch(b: Batch, out: seq<Batch>, sequence: nat, start: nat)
    ensures Videos([b] + out) == b.video + Videos(out) && Audios([b] + out) == b.audio + Audios(out)
    ensures Chained([b] + out, sequence, start)
            <==> b.segment.sequence == sequence && b.segment.start == start
                 && Chained(out, sequence + 1, start + b.segment.duration)
  {
    assert ([b] + out)[1..] == out;
  }

  lemma {:induction false} FlushConserves(m: Mux, ops: seq<Op>)
    requires m.start <= m.total && ops != [] && ops[0] == Flush
    requires var r := RunAll(AfterFlush(m), ops[1..]);
             && Videos(r.out) + r.mux.video == AfterFlush(m).video + Accepted(AfterFlush(m), ops[1..], Video)
             && Audios(r.out) + r.mux.audio == AfterFlush(m).audio + Accepted(AfterFlush(m), ops[1..], Audio)
             && Chained(r.out, AfterFlush(m).sequence, AfterFlush(m).start)
    ensures var r := RunAll(m, ops);
            && Videos(r.out) + r.mux.video == m.video + Accepted(m, ops, Video)
            && Audios(r.out) + r.mux.audio == m.audio + Accepted(m, ops, Audio)
            && Chained(r.out, m.sequence, m.start)
  {
    hide *;
    var rest := RunAll(AfterFlush(m), ops[1..]);
    FlushRuns(m, ops);
    FlushAccepts(m, ops, Video);
    FlushAccepts(m, ops, Audio);
    FlushFields(m);
    if Flushed(m).None? {
      assert [] + rest.out == rest.out;
    } else {
      OneBatch(Batch(Flushed(m).value, m.video, m.audio), rest.out, m.sequence, m.start);
      var v, a := Accepted(m, ops, Video), Accepted(m, ops, Audio);
      assert [] + v == v && [] + a == a;
      Assoc(m.video, Videos(rest.out), rest.mux.video);
      Assoc(m.audio, Audios(rest.out), rest.mux.audio);
    }
  }

  lemma {:induction false} RunIsFaithful(m: Mux, ops: seq<Op>)
    ensures forall b :: b in RunAll(m, ops).out ==> Faithful(b)
    decreases |ops|
  {
    hide Pushed, Encoded, SegmentNodes;
    if ops != [] {
      RunIsFaithful(RunStep(m, ops[0]).mux, ops[1..]);
    }
  }

  // ---- from frames to frames ----

  /** The frames of one track, read segment by segment. */
  function Read(tracks: map<u32, Track>, out: seq<Batch>, id: u32): seq<MediaFrame>
    requires ValidTracks(tracks)
  {
    if out == [] then []
    else
      var r := DemuxFragment(tracks, out[0].segment.data);
      (if r.Ok? then OfTrack(r.value, id) else []) + Read(tracks, out[1..], id)
  }

  predicate Readable(out: seq<Batch>) {
    forall b :: b in out ==> b.segment.start <= U64_MAX && SegmentSize(b.video, b.audio) < 0x8000_0000
  }

  /** The frames carry the samples, and where `keys` holds also their sync flags. */
  predicate Carry(fs: seq<MediaFrame>, ss: seq<Sample>, keys: bool) {
    && |fs| == |ss|
    && forall i :: 0 <= i < |fs| ==> fs[i].data == ss[i].data && (keys ==> fs[i].keyFrame == ss[i].sync)
  }

  /** The reader keeps the sync flags of every track but AAC. */
  predicate HasKeys(tracks: map<u32, Track>, id: u32) {
    id in tracks && tracks[id].codec != AAC
  }

  /** The reader knows the tracks of all samples. */
  predicate Covers(tracks: map<u32, Track>, out: seq<Batch>) {
    forall b :: b in out ==> (b.video != [] ==> 1 in tracks) && (b.audio != [] ==> 2 in tracks)
  }

  lemma {:induction false} TrackCarries(tracks: map<u32, Track>, id: u32, start: nat, samples: seq<Sample>)
    requires ValidTracks(tracks) && (samples != [] ==> id in tracks) && start <= U64_MAX
    ensures Carry(TrackFrames(tracks, id, start, samples), samples, HasKeys(tracks, id))
  {
    hide FramesOf;
    if samples != [] {
      FramesCarry(tracks[id], start, samples);
    }
  }

  lemma {:induction false} CarryAppend(a: seq<MediaFrame>, s: seq<Sample>, b: seq<MediaFrame>, t: seq<Sample>,
                                       keys: bool)
    requires Carry(a, s, keys) && Carry(b, t, keys)
    ensures Carry(a + b, s + t, keys)
  {
  }

  /** The samples of one track, batch by batch. */
  function Sent(out: seq<Batch>, id: u32): seq<Sample> {
    if id == 1 then Videos(out) else Audios(out)
  }

  lemma {:induction false} ReadGivesSamples(tracks: map<u32, Track>, out: seq<Batch>, id: u32)
    requires ValidTracks(tracks) && Covers(tracks, out) && Readable(out) && (id == 1 || id == 2)
    requires forall b :: b in out ==> Faithful(b)
    ensures Carry(Read(tracks, out, id), Sent(out, id), HasKeys(tracks, id))
  {
    hide DemuxFragment, Encoded, SegmentNodes, SegmentSize, TrackFrames, OfTrack, Carry, Ordered, ValidTracks, HasKeys;
    if out == [] {
      NothingCarried(HasKeys(tracks, id));
    } else {
      var b := out[0];
      var samples := if id == 1 then b.video else b.audio;
      ReadGivesSamples(tracks, out[1..], id);
      assert Faithful(b);
      SegmentKeepsTracks(tracks, b.segment.sequence, b.segment.start, b.video, b.audio);
      TrackCarries(tracks, id, b.segment.start, samples);
      CarryAppend(TrackFrames(tracks, id, b.segment.start, samples), samples,
                  Read(tracks, out[1..], id), Sent(out[1..], id), HasKeys(tracks, id));
    }
  }

  lemma {:induction false} NothingCarried(keys: bool)
    ensures Carry([], [], keys)
  {
  }

  /** Of the accepted samples, all but the pending ones are read, in order. */
  predicate Delivered(fs: seq<MediaFrame>, accepted: seq<Sample>, pending: seq<Sample>, keys: bool) {
    var n := |accepted| - |pending|;
    0 <= n && accepted[n..] == pending && Carry(fs, accepted[..n], keys)
  }

  lemma {:induction false} DeliveredIs(fs: seq<MediaFrame>, sent: seq<Sample>, pending: seq<Sample>, keys: bool)
    requires Carry(fs, sent, keys)
    ensures Delivered(fs, sent + pending, pending, keys)
  {
    assert (sent + pending)[|sent|..] == pending && (sent + pending)[..|sent|] == sent;
  }

  // ---- decode times ----

  function TimesOf(fs: seq<MediaFrame>): (r: seq<nat>)
    ensures |r| == |fs|
  {
    seq(|fs|, i requires 0 <= i < |fs| => fs[i].dts)
  }

  function TimeAt(start: nat, samples: seq<Sample>, i: nat, timescale: u32): nat
    requires 0 < timescale && i < |samples|
  {
    (start + Elapsed(samples, i)) * 1000 / timescale
  }

  /** The decode times of one segment: its start plus the durations before each sample, in milliseconds rounded down. */
  function SegmentTimes(start: nat, samples: seq<Sample>, timescale: u32): (r: seq<nat>)
    requires 0 < timescale
    ensures |r| == |samples|
  {
    seq(|samples|, i requires 0 <= i < |samples| => TimeAt(start, samples, i, timescale))
  }

  function SamplesOf(b: Batch, id: u32): seq<Sample> {
    if id == 1 then b.video else b.audio
  }

  function RunTimes(out: seq<Batch>, id: u32, timescale: u32): seq<nat>
    requires 0 < timescale
  {
    if out == [] then []
    else SegmentTimes(out[0].segment.start, SamplesOf(out[0], id), timescale) + RunTimes(out[1..], id, timescale)
  }

  /** The times of all samples of a track fit 64 bits in milliseconds. */
  ghost predicate Timely(out: seq<Batch>, id: u32) {
    forall b, i: nat :: b in out && i < |SamplesOf(b, id)| ==> TimeFits(b, SamplesOf(b, id), i)
  }

  ghost predicate TimeFits(b: Batch, samples: seq<Sample>, i: nat)
    requires i < |samples|
  {
    (b.segment.start + Elapsed(samples, i)) * 1000 <= U64_MAX
  }

  lemma {:induction false} TrackTimes(tracks: map<u32, Track>, id: u32, b: Batch, samples: seq<Sample>)
    requires ValidTracks(tracks) && id in tracks
    requires forall i: nat :: i < |samples| ==> TimeFits(b, samples, i)
    ensures TimesOf(TrackFrames(tracks, id, b.segment.start, samples))
            == SegmentTimes(b.segment.start, samples, tracks[id].timescale)
  {
    hide FramesOf, Elapsed;
    var fs := TrackFrames(tracks, id, b.segment.start, samples);
    if samples != [] {
      assert TimeFits(b, samples, 0);
      StartFits(b, samples);
      FramesCarry(tracks[id], b.segment.start, samples);
      forall i: nat | i < |samples|
        ensures fs[i].dts == (b.segment.start + Elapsed(samples, i)) * 1000 / tracks[id].timescale
      {
        assert TimeFits(b, samples, i);
        DecodeTime(tracks[id], b.segment.start, samples, i);
      }
    }
  }

  lemma {:induction false} StartFits(b: Batch, samples: seq<Sample>)
    requires samples != [] && TimeFits(b, samples, 0)
    ensures b.segment.start <= U64_MAX
  {
  }

  lemma {:induction false} TimesAppend(a: seq<MediaFrame>, b: seq<MediaFrame>)
    ensures TimesOf(a + b) == TimesOf(a) + TimesOf(b)
  {
  }

  /** Over the segments of a run, every frame read has the decode time its segment gives it. */
  lemma {:induction false} ReadGivesTimes(tracks: map<u32, Track>, out: seq<Batch>, id: u32)
    requires ValidTracks(tracks) && Covers(tracks, out) && Readable(out) && (id == 1 || id == 2) && id in tracks
    requires Timely(out, id) && forall b :: b in out ==> Faithful(b)
    ensures TimesOf(Read(tracks, out, id)) == RunTimes(out, id, tracks[id].timescale)
  {
    hide DemuxFragment, Encoded, SegmentNodes, SegmentSize, TrackFrames, OfTrack, Ordered, ValidTracks, TimeFits;
    hide TimesOf, SegmentTimes;
    if out == [] {
      TimesAppend([], []);
    } else {
      var b := out[0];
      ReadGivesTimes(tracks, out[1..], id);
      assert Faithful(b);
      SegmentKeepsTracks(tracks, b.segment.sequence, b.segment.start, b.video, b.audio);
      assert b in out;
      TrackTimes(tracks, id, b, SamplesOf(b, id));
      TimesAppend(TrackFrames(tracks, id, b.segment.start, SamplesOf(b, id)), Read(tracks, out[1..], id));
    }
  }

  /** For every run from a new muxer, a reader gets back the bytes and sync flags of every accepted sample that is
    * no longer pending, track by track and in order, whatever the cut into segments; and every frame has the decode
    * time of its place in its segment while the times fit. */
  lemma {:induction false} RunRoundTrip(tracks: map<u32, Track>, timescale: u32, ops: seq<Op>)
    requires ValidTracks(tracks)
    requires var out := RunAll(New(timescale), ops).out; Covers(tracks, out) && Readable(out)
    ensures var m, r := New(timescale), RunAll(New(timescale), ops);
            && Delivered(Read(tracks, r.out, 1), Accepted(m, ops, Video), r.mux.video, HasKeys(tracks, 1))
            && Delivered(Read(tracks, r.out, 2), Accepted(m, ops, Audio), r.mux.audio, HasKeys(tracks, 2))
    ensures Timed(tracks, RunAll(New(timescale), ops).out, 1) && Timed(tracks, RunAll(New(timescale), ops).out, 2)
  {
    hide *;
    var m := New(timescale);
    var r := RunAll(m, ops);
    RunIsFaithful(m, ops);
    ReadIsTimed(tracks, r.out, 1);
    ReadIsTimed(tracks, r.out, 2);
    ReadGivesSamples(tracks, r.out, 1);
    ReadGivesSamples(tracks, r.out, 2);
    SentIs(r.out);
    NewIsEmpty(timescale);
    RunConserves(m, ops);
    assert [] + Accepted(m, ops, Video) == Accepted(m, ops, Video);
    assert [] + Accepted(m, ops, Audio) == Accepted(m, ops, Audio);
    DeliveredIs(Read(tracks, r.out, 1), Videos(r.out), r.mux.video, HasKeys(tracks, 1));
    DeliveredIs(Read(tracks, r.out, 2), Audios(r.out), r.mux.audio, HasKeys(tracks, 2));
  }

  /** What is read of a track has the decode times of its segments. */
  ghost predicate Timed(tracks: map<u32, Track>, out: seq<Batch>, id: u32)
    requires ValidTracks(tracks)
  {
    id in tracks && Timely(out, id) ==> TimesOf(Read(tracks, out, id)) == RunTimes(out, id, tracks[id].timescale)
  }

  lemma {:induction false} ReadIsTimed(tracks: map<u32, Track>, out: seq<Batch>, id: u32)
    requires ValidTracks(tracks) && Covers(tracks, out) && Readable(out) && (id == 1 || id == 2)
    requires forall b :: b in out ==> Faithful(b)
    ensures Timed(tracks, out, id)
  {
    hide Read, RunTimes, TimesOf, Timely, Readable, Faithful, Covers;
    if id in tracks && Timely(out, id) {
      ReadGivesTimes(tracks, out, id);
    }
  }

  lemma {:induction false} SentIs(out: seq<Batch>)
    ensures Sent(out, 1) == Videos(out) && Sent(out, 2) == Audios(out)
  {
  }

  lemma {:induction false} NewIsEmpty(timescale: u32)
    ensures var m := New(timescale); m.video == [] && m.audio == [] && m.start == m.total
  {
  }
}
