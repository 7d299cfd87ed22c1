/** The fragment reader (crates/mp4/src/fragmented_demuxer.rs, `demux_fragment` and `demux_traf`). */
module Fmp4Demux {
  import opened Bytes
  import opened Frames
  import opened Boxes
  import Fmp4Mux

  datatype Track = Track(id: u32, codec: CodecId, timescale: u32, width: nat, height: nat, channels: nat, config: bytes)

  predicate ValidTrack(t: Track) {
    0 < t.timescale && t.codec in {H264, H265, AAC}
  }

  predicate ValidTracks(tracks: map<u32, Track>) {
    forall id :: id in tracks ==> ValidTrack(tracks[id]) && tracks[id].id == id
  }

  function Read32(d: bytes, off: nat): (r: Result<nat>)
    ensures r.Ok? ==> r.value < 0x1_0000_0000
  {
    if off + 4 <= |d| then Ok(U32(d, off)) else Err(Codec)
  }

  function Read64(d: bytes, off: nat): (r: Result<nat>)
    ensures r.Ok? ==> r.value <= U64_MAX
  {
    if off + 8 <= |d| then Ok(U64(d, off)) else Err(Codec)
  }

  /** Whether `mask`, a power of two, is set in `flags`. */
  predicate Has(flags: nat, mask: nat)
    requires 0 < mask
  {
    flags / mask % 2 == 1
  }

  // ---- the track fragment header ----

  datatype Tfhd = Tfhd(trackId: nat, base: nat, duration: nat, size: nat, flags: nat)

  /** An optional 32-bit field: its value and the offset behind it. */
  datatype Field = Field(value: nat, next: nat)

  function Optional32(d: bytes, off: nat, present: bool): Result<Field> {
    if !present then Ok(Field(0, off))
    else
      var v :- Read32(d, off);
      Ok(Field(v, off + 4))
  }

  function ReadTfhd(d: bytes, moofStart: nat): Result<Tfhd> {
    var word :- Read32(d, 0);
    var trackId :- Read32(d, 4);
    var flags := word % 0x100_0000;
    var base :- if Has(flags, 1) then Read64(d, 8) else Ok(moofStart);
    var off := (if Has(flags, 1) then 16 else 8) + if Has(flags, 2) then 4 else 0;
    var duration :- Optional32(d, off, Has(flags, 8));
    var size :- Optional32(d, duration.next, Has(flags, 0x10));
    var defaults :- Optional32(d, size.next, Has(flags, 0x20));
    Ok(Tfhd(trackId, base, duration.value, size.value, defaults.value))
  }

  function ReadTfdt(d: bytes): Result<nat> {
    if d != [] && d[0] == 1 then Read64(d, 4) else Read32(d, 4)
  }

  // ---- one run of samples ----

  /** What stays fixed over a run. */
  datatype Run = Run(version: nat, flags: nat, count: nat, firstFlags: Option<nat>, tfhd: Tfhd, track: Track)

  /** What the loops advance: the offset in the sample table, the next sample, the decode time and the output. */
  datatype Cursor = Cursor(off: nat, at: nat, time: nat, frames: seq<MediaFrame>)

  function Signed32(n: nat): int {
    if n < 0x8000_0000 then n else n - 0x1_0000_0000
  }

  function FieldBytes(flags: nat): nat {
    4 * ((if Has(flags, 0x100) then 1 else 0) + (if Has(flags, 0x200) then 1 else 0)
         + (if Has(flags, 0x400) then 1 else 0) + (if Has(flags, 0x800) then 1 else 0))
  }

  /** The data offset of a run: `None` of an explicit one is an error when negative or too large. */
  function RunStart(t: bytes, flags: nat, tfhd: Tfhd, implicit: nat): Result<Field> {
    if !Has(flags, 1) then Ok(Field(implicit, 8))
    else
      var word :- Read32(t, 8);
      var sum := Signed64(tfhd.base) + Signed32(word);
      if 0 <= sum < 0x8000_0000_0000_0000 then Ok(Field(sum, 12)) else Err(Codec)
  }

  predicate CountFits(data: bytes, t: bytes, flags: nat, count: nat, off: nat, at: nat, tfhd: Tfhd) {
    var perSample := FieldBytes(flags);
    if perSample > 0 then off <= |t| && count <= (|t| - off) / perSample
    else count == 0 || (tfhd.size != 0 && count <= (if at <= |data| then |data| - at else 0) / tfhd.size)
  }

  datatype Begun = Begun(run: Run, off: nat, at: nat)

  /** The head of a `trun` box with payload `t`. */
  function BeginRun(data: bytes, t: bytes, tfhd: Tfhd, track: Track, implicit: nat): Result<Begun> {
    var word :- Read32(t, 0);
    var flags := word % 0x100_0000;
    var count :- Read32(t, 4);
    var start :- RunStart(t, flags, tfhd, implicit);
    var first :- Optional32(t, start.next, Has(flags, 4));
    if !CountFits(data, t, flags, count, first.next, start.value, tfhd) then Err(Codec)
    else
      var firstFlags := if Has(flags, 4) then Some(first.value) else None;
      Ok(Begun(Run(if t == [] then 0 else t[0], flags, count, firstFlags, tfhd, track), first.next, start.value))
  }

  datatype SampleHead = SampleHead(duration: nat, size: nat, flags: nat, composition: int, next: nat)

  function ReadHead(t: bytes, r: Run, off: nat, index: nat): Result<SampleHead> {
    var duration :- Optional32(t, off, Has(r.flags, 0x100));
    var size :- Optional32(t, duration.next, Has(r.flags, 0x200));
    var flags :- Optional32(t, size.next, Has(r.flags, 0x400));
    var composition :- Optional32(t, flags.next, Has(r.flags, 0x800));
    Ok(SampleHead(
      if Has(r.flags, 0x100) then duration.value else r.tfhd.duration,
      if Has(r.flags, 0x200) then size.value else r.tfhd.size,
      if Has(r.flags, 0x400) then flags.value
      else if index == 0 && r.firstFlags.Some? then r.firstFlags.value else r.tfhd.flags,
      if Has(r.flags, 0x800) && r.version == 1 then Signed32(composition.value) else composition.value,
      composition.next))
  }

  function Ms(ticks: nat, timescale: u32): (r: u64)
    requires 0 < timescale
  {
    DivBelow(Clamp(ticks * 1000), timescale);
    Clamp(ticks * 1000) / timescale
  }

  function Frame(track: Track, time: nat, composition: int, data: bytes, key: bool): MediaFrame
    requires ValidTrack(track)
  {
    var dts := Ms(time, track.timescale);
    var ticks := if composition < 0 then (if -composition <= time then time + composition else 0)
                 else Clamp(time + composition);
    var pts := Ms(ticks, track.timescale);
    var stamp: u32 := dts % 0x1_0000_0000;
    if track.codec == AAC then MediaFrame(track.id, Audio, AAC, stamp, pts, dts, data, AacRaw, false, false)
    else
      MediaFrame(track.id, Video, track.codec, stamp, pts, dts, data,
                 if track.codec == H264 then Avcc else Hvcc, key, false)
  }

  function NextSample(data: bytes, t: bytes, r: Run, c: Cursor, index: nat): Result<Cursor>
    requires ValidTrack(r.track)
  {
    var h :- ReadHead(t, r, c.off, index);
    if c.at + h.size > |data| then Err(Codec)
    else
      var frame := Frame(r.track, c.time, h.composition, data[c.at..c.at + h.size], !Has(h.flags, 0x1_0000));
      Ok(Cursor(h.next, c.at + h.size, Clamp(c.time + h.duration), c.frames + [frame]))
  }

  /** Samples `index` to the end of the run. */
  function SamplesFrom(data: bytes, t: bytes, r: Run, c: Cursor, index: nat): Result<Cursor>
    requires ValidTrack(r.track) && index <= r.count
    decreases r.count - index
  {
    if index == r.count then Ok(c)
    else
      var d :- NextSample(data, t, r, c, index);
      SamplesFrom(data, t, r, d, index + 1)
  }

  /** The state between runs of one fragment; `at` is where a run without an offset starts. */
  function OneRun(data: bytes, v: View, tfhd: Tfhd, track: Track, c: Cursor): Result<Cursor>
    requires v.dataStart <= v.end <= |data| && ValidTrack(track)
  {
    var t := data[v.dataStart..v.end];
    var b :- BeginRun(data, t, tfhd, track, c.at);
    SamplesFrom(data, t, b.run, Cursor(b.off, b.at, c.time, c.frames), 0)
  }

  function Runs(data: bytes, vs: seq<View>, tfhd: Tfhd, track: Track, c: Cursor): Result<Cursor>
    requires ValidTrack(track) && forall v :: v in vs ==> v.dataStart <= v.end <= |data|
  {
    if vs == [] then Ok(c)
    else
      var d :- OneRun(data, vs[0], tfhd, track, c);
      Runs(data, vs[1..], tfhd, track, d)
  }

  function Traf(tracks: map<u32, Track>, data: bytes, moof: View, mdat: View, traf: View, out: seq<MediaFrame>)
    : Result<seq<MediaFrame>>
    requires ValidTracks(tracks) && traf.end <= |data|
  {
    var tfhdBox :- Child(data, traf, Fmp4Mux.TFHD);
    if tfhdBox.None? then Err(Codec)
    else
      var tfhd :- ReadTfhd(data[tfhdBox.value.dataStart..tfhdBox.value.end], moof.start);
      if tfhd.trackId !in tracks then Err(Codec)
      else
        var tfdt :- Child(data, traf, Fmp4Mux.TFDT);
        var time :- if tfdt.None? then Ok(0) else ReadTfdt(data[tfdt.value.dataStart..tfdt.value.end]);
        var vs :- Views(data, traf.dataStart, traf.end);
        var c :- Runs(data, Filtered(vs, Fmp4Mux.TRUN), tfhd, tracks[tfhd.trackId],
                      Cursor(0, mdat.dataStart, time, out));
        Ok(c.frames)
  }

  function TrafsFrom(tracks: map<u32, Track>, data: bytes, moof: View, mdat: View, vs: seq<View>, out: seq<MediaFrame>)
    : Result<seq<MediaFrame>>
    requires ValidTracks(tracks) && forall v :: v in vs ==> v.end <= |data|
  {
    if vs == [] then Ok(out)
    else
      var more :- Traf(tracks, data, moof, mdat, vs[0], out);
      TrafsFrom(tracks, data, moof, mdat, vs[1..], more)
  }

  // ---- the final order ----

  /** The sort key is the pair of decode time and track. */
  predicate Before(a: MediaFrame, b: MediaFrame) {
    a.dts < b.dts || (a.dts == b.dts && a.trackId <= b.trackId)
  }

  function Insert(f: MediaFrame, s: seq<MediaFrame>): seq<MediaFrame> {
    if s == [] || Before(f, s[0]) then [f] + s else [s[0]] + Insert(f, s[1..])
  }

  /** A stable sort, as `sort_by_key` is. */
  function Sort(s: seq<MediaFrame>): seq<MediaFrame> {
    if s == [] then [] else Insert(s[0], Sort(s[1..]))
  }

  function DemuxFragment(tracks: map<u32, Track>, data: bytes): Result<seq<MediaFrame>>
    requires ValidTracks(tracks)
  {
    var top :- Views(data, 0, |data|);
    var moof, mdat := First(top, Fmp4Mux.MOOF), First(top, Fmp4Mux.MDAT);
    if moof.None? || mdat.None? then Err(Codec)
    else
      var vs :- Views(data, moof.value.dataStart, moof.value.end);
      var frames :- TrafsFrom(tracks, data, moof.value, mdat.value, Filtered(vs, Fmp4Mux.TRAF), []);
      Ok(Sort(frames))
  }

  // ---- the loops ----

  lemma {:induction false} SamplesStep(data: bytes, t: bytes, r: Run, c: Cursor, index: nat)
    requires ValidTrack(r.track) && index < r.count
    ensures SamplesFrom(data, t, r, c, index)
            == if NextSample(data, t, r, c, index).Err? then Err(NextSample(data, t, r, c, index).error)
               else SamplesFrom(data, t, r, NextSample(data, t, r, c, index).value, index + 1)
  {
    hide NextSample;
  }

  lemma {:induction false} SamplesEnd(data: bytes, t: bytes, r: Run, c: Cursor)
    requires ValidTrack(r.track)
    ensures SamplesFrom(data, t, r, c, r.count) == Ok(c)
  {
  }

  method ReadRun(data: bytes, trun: View, tfhd: Tfhd, track: Track, c: Cursor) returns (res: Result<Cursor>)
    requires trun.dataStart <= trun.end <= |data| && ValidTrack(track)
    ensures res == OneRun(data, trun, tfhd, track, c)
  {
    hide SamplesFrom, BeginRun, ReadHead, Frame, Has, Clamp;
    var t := data[trun.dataStart..trun.end];
    var b :- BeginRun(data, t, tfhd, track, c.at);
    BeginRunTrack(data, t, tfhd, track, c.at);
    var r := b.run;
    var offset: nat, sampleOffset: nat, decodeTime: nat, output := b.off, b.at, c.time, c.frames;
    var index := 0;
    while index < r.count
      invariant index <= r.count
      invariant SamplesFrom(data, t, r, Cursor(offset, sampleOffset, decodeTime, output), index)
                == SamplesFrom(data, t, r, Cursor(b.off, b.at, c.time, c.frames), 0)
    {
      SamplesStep(data, t, r, Cursor(offset, sampleOffset, decodeTime, output), index);
      var h :- ReadHead(t, r, offset, index);
      var sampleEnd := sampleOffset + h.size;
      if sampleEnd > |data| {
        return Err(Codec);
      }
      var sample := data[sampleOffset..sampleEnd];
      output := output + [Frame(track, decodeTime, h.composition, sample, !Has(h.flags, 0x1_0000))];
      decodeTime := Clamp(decodeTime + h.duration);
      offset, sampleOffset := h.next, sampleEnd;
      index := index + 1;
    }
    SamplesEnd(data, t, r, Cursor(offset, sampleOffset, decodeTime, output));
    return Ok(Cursor(offset, sampleOffset, decodeTime, output));
  }

  lemma {:induction false} BeginRunTrack(data: bytes, t: bytes, tfhd: Tfhd, track: Track, implicit: nat)
    ensures BeginRun(data, t, tfhd, track, implicit).Ok? ==>
              BeginRun(data, t, tfhd, track, implicit).value.run.track == track
  {
  }

  method DemuxTraf(tracks: map<u32, Track>, data: bytes, moof: View, mdat: View, traf: View, out: seq<MediaFrame>)
    returns (r: Result<seq<MediaFrame>>)
    requires ValidTracks(tracks) && traf.end <= |data|
    ensures r == Traf(tracks, data, moof, mdat, traf, out)
  {
    hide OneRun, Views, First, Filtered, ReadTfhd, ReadTfdt, Within;
    var vs :- Scan(data, traf.dataStart, traf.end);
    ViewsInside(data, traf);
    var tfhdBox := First(vs, Fmp4Mux.TFHD);
    if tfhdBox.None? {
      return Err(Codec);
    }
    var tfhd :- ReadTfhd(data[tfhdBox.value.dataStart..tfhdBox.value.end], moof.start);
    if tfhd.trackId !in tracks {
      return Err(Codec);
    }
    var track := tracks[tfhd.trackId];
    var tfdt := First(vs, Fmp4Mux.TFDT);
    var time := 0;
    if tfdt.Some? {
      time :- ReadTfdt(data[tfdt.value.dataStart..tfdt.value.end]);
    }
    var truns := Filtered(vs, Fmp4Mux.TRUN);
    var c := Cursor(0, mdat.dataStart, time, out);
    ghost var c0 := c;
    var k := 0;
    assert truns[0..] == truns;
    while k < |truns|
      invariant k <= |truns|
      invariant Runs(data, truns[k..], tfhd, track, c) == Runs(data, truns, tfhd, track, c0)
    {
      assert truns[k..][1..] == truns[k + 1..];
      c :- ReadRun(data, truns[k], tfhd, track, c);
      k := k + 1;
    }
    return Ok(c.frames);
  }

  lemma {:induction false} ViewsInside(data: bytes, parent: View)
    requires parent.end <= |data|
    ensures Views(data, parent.dataStart, parent.end).Ok? ==>
              forall v :: v in Views(data, parent.dataStart, parent.end).value ==> v.dataStart <= v.end <= |data|
  {
    hide Views;
  }

  method Demux(tracks: map<u32, Track>, data: bytes) returns (r: Result<seq<MediaFrame>>)
    requires ValidTracks(tracks)
    ensures r == DemuxFragment(tracks, data)
  {
    hide Traf, Views, First, Filtered, Within, Sort;
    var top :- Scan(data, 0, |data|);
    var moof, mdat := First(top, Fmp4Mux.MOOF), First(top, Fmp4Mux.MDAT);
    if moof.None? || mdat.None? {
      return Err(Codec);
    }
    TopInside(data);
    var vs :- Scan(data, moof.value.dataStart, moof.value.end);
    ViewsInside(data, moof.value);
    var trafs := Filtered(vs, Fmp4Mux.TRAF);
    var frames := [];
    var k := 0;
    assert trafs[0..] == trafs;
    while k < |trafs|
      invariant k <= |trafs|
      invariant TrafsFrom(tracks, data, moof.value, mdat.value, trafs[k..], frames)
                == TrafsFrom(tracks, data, moof.value, mdat.value, trafs, [])
    {
      assert trafs[k..][1..] == trafs[k + 1..];
      frames :- DemuxTraf(tracks, data, moof.value, mdat.value, trafs[k], frames);
      k := k + 1;
    }
    return Ok(Sort(frames));
  }

  lemma {:induction false} TopInside(data: bytes)
    ensures Views(data, 0, |data|).Ok? ==> forall v :: v in Views(data, 0, |data|).value ==> v.end <= |data|
  {
    hide Views;
  }
}
