/** Reading back written media segments: Fmp4Mux against Fmp4Demux. */
module Fmp4Stream {
  import opened Bytes
  import opened Frames
  import opened Boxes
  import opened Fmp4Mux
  import opened Fmp4Demux

  /** The frames a reader should see: the samples in order, each at the end of those before it. */
  function FramesOf(track: Track, time: nat, samples: seq<Sample>): seq<MediaFrame>
    requires ValidTrack(track)
    decreases |samples|
  {
    if samples == [] then []
    else
      [Frame(track, time, 0, samples[0].data, samples[0].sync)]
      + FramesOf(track, Clamp(time + samples[0].duration), samples[1..])
  }

  function EndOf(time: nat, samples: seq<Sample>): nat
    decreases |samples|
  {
    if samples == [] then time else EndOf(Clamp(time + samples[0].duration), samples[1..])
  }

  // ---- the sample table ----

  lemma {:induction false} RunFlags()
    ensures Has(RUN_FLAGS, 1) && !Has(RUN_FLAGS, 4) && FieldBytes(RUN_FLAGS) == 12
    ensures Has(RUN_FLAGS, 0x100) && Has(RUN_FLAGS, 0x200) && Has(RUN_FLAGS, 0x400) && !Has(RUN_FLAGS, 0x800)
  {
  }

  lemma {:induction false} SyncFlags(sync: bool)
    ensures !Has(if sync then SYNC_FLAGS else DELTA_FLAGS, 0x1_0000) <==> sync
  {
  }

  lemma {:induction false} RowFields(t: bytes, off: nat, s: Sample)
    requires At(t, off, Row(s)) && |s.data| < 0x1_0000_0000
    ensures off + 12 <= |t| && U32(t, off) == s.duration && U32(t, off + 4) == |s.data|
    ensures U32(t, off + 8) == if s.sync then SYNC_FLAGS else DELTA_FLAGS
  {
    hide At, BE32, U32;
    var a, b, c := BE32(s.duration), BE32(|s.data|), BE32(if s.sync then SYNC_FLAGS else DELTA_FLAGS);
    AtIs(t, off, Row(s));
    AtSplit(t, off, a + b, c);
    AtSplit(t, off, a, b);
    U32At(t, off, s.duration);
    U32At(t, off + 4, |s.data|);
    U32At(t, off + 8, if s.sync then SYNC_FLAGS else DELTA_FLAGS);
  }

  lemma {:induction false} RowIsRead(t: bytes, r: Run, off: nat, index: nat, s: Sample)
    requires At(t, off, Row(s)) && |s.data| < 0x1_0000_0000 && r.flags == RUN_FLAGS
    ensures ReadHead(t, r, off, index)
            == Ok(SampleHead(s.duration, |s.data|, if s.sync then SYNC_FLAGS else DELTA_FLAGS, 0, off + 12))
  {
    RowFields(t, off, s);
    RunFlags();
    hide At, Row, U32, Has, FieldBytes;
  }

  lemma {:induction false} SampleIsRead(data: bytes, t: bytes, r: Run, c: Cursor, index: nat, s: Sample)
    requires ValidTrack(r.track) && r.flags == RUN_FLAGS && |s.data| < 0x1_0000_0000
    requires At(t, c.off, Row(s)) && At(data, c.at, s.data)
    ensures NextSample(data, t, r, c, index)
            == Ok(Cursor(c.off + 12, c.at + |s.data|, Clamp(c.time + s.duration),
                         c.frames + [Frame(r.track, c.time, 0, s.data, s.sync)]))
  {
    hide Row, ReadHead, Frame, Has, Clamp, At;
    RowIsRead(t, r, c.off, index, s);
    SyncFlags(s.sync);
    AtIs(data, c.at, s.data);
  }

  lemma {:induction false} SamplesAreRead(data: bytes, t: bytes, r: Run, c: Cursor, index: nat, samples: seq<Sample>)
    requires ValidTrack(r.track) && r.flags == RUN_FLAGS && index + |samples| == r.count
    requires At(t, c.off, Rows(samples)) && At(data, c.at, Fmp4Mux.Payloads(samples))
    requires |Fmp4Mux.Payloads(samples)| < 0x1_0000_0000
    ensures SamplesFrom(data, t, r, c, index)
            == Ok(Cursor(c.off + 12 * |samples|, c.at + |Fmp4Mux.Payloads(samples)|, EndOf(c.time, samples),
                         c.frames + FramesOf(r.track, c.time, samples)))
    decreases |samples|
  {
    hide Row, NextSample, Frame, Clamp, At, SamplesFrom;
    if samples == [] {
      SamplesEnd(data, t, r, c);
      assert c.frames + [] == c.frames;
    } else {
      var s, rest := samples[0], samples[1..];
      AtSplit(t, c.off, Row(s), Rows(rest));
      AtSplit(data, c.at, s.data, Fmp4Mux.Payloads(rest));
      SampleIsRead(data, t, r, c, index, s);
      SamplesStep(data, t, r, c, index);
      var d := NextSample(data, t, r, c, index).value;
      SamplesAreRead(data, t, r, d, index + 1, rest);
      Assoc(c.frames, [Frame(r.track, c.time, 0, s.data, s.sync)], FramesOf(r.track, d.time, rest));
    }
  }

  // ---- one run ----

  lemma {:induction false} TrunFields(t: bytes, samples: seq<Sample>, dataOffset: nat)
    requires t == TrunNode(samples, dataOffset).body && |samples| < 0x1_0000_0000 && dataOffset < 0x8000_0000
    ensures |t| == 12 + 12 * |samples| && t[0] == 0
    ensures U32(t, 0) == RUN_FLAGS && U32(t, 4) == |samples| && U32(t, 8) == dataOffset && At(t, 12, Rows(samples))
  {
    hide U32, Rows, BE32, At, TrunNode;
    TrunBody(samples, dataOffset);
    FourParts(t, BE32(RUN_FLAGS), BE32(|samples|), BE32(dataOffset), Rows(samples));
    WordsAt(t, |samples|, dataOffset);
  }

  lemma {:induction false} TrunBody(samples: seq<Sample>, dataOffset: nat)
    ensures TrunNode(samples, dataOffset).body == BE32(RUN_FLAGS) + BE32(|samples|) + BE32(dataOffset) + Rows(samples)
  {
    hide Rows, BE32;
  }

  lemma {:induction false} FourParts(t: bytes, a: bytes, b: bytes, c: bytes, d: bytes)
    requires t == a + b + c + d && |a| == |b| == |c| == 4
    ensures At(t, 0, a) && At(t, 4, b) && At(t, 8, c) && At(t, 12, d)
  {
  }

  lemma {:induction false} WordsAt(t: bytes, count: nat, dataOffset: nat)
    requires count < 0x1_0000_0000 && dataOffset < 0x1_0000_0000 && 12 <= |t|
    requires At(t, 0, BE32(RUN_FLAGS)) && At(t, 4, BE32(count)) && At(t, 8, BE32(dataOffset))
    ensures U32(t, 0) == RUN_FLAGS && U32(t, 4) == count && U32(t, 8) == dataOffset && t[0] == 0
  {
    hide U32, BE32, At;
    U32At(t, 0, RUN_FLAGS);
    U32At(t, 4, count);
    U32At(t, 8, dataOffset);
    TopByte(t);
  }

  lemma {:induction false} TopByte(t: bytes)
    requires 4 <= |t|
    ensures t[0] == U32(t, 0) / 0x100_0000
  {
  }

  lemma {:induction false} RunBegins(data: bytes, t: bytes, tfhd: Tfhd, track: Track, implicit: nat,
                                     samples: seq<Sample>, dataOffset: nat)
    requires t == TrunNode(samples, dataOffset).body && |samples| < 0x1_0000_0000 && dataOffset < 0x8000_0000
    requires tfhd.base < 0x1_0000_0000
    ensures BeginRun(data, t, tfhd, track, implicit)
            == Ok(Begun(Run(0, RUN_FLAGS, |samples|, None, tfhd, track), 12, tfhd.base + dataOffset))
  {
    hide U32, At, Rows, TrunNode, Has, FieldBytes;
    TrunFields(t, samples, dataOffset);
    RunFlags();
    var n := |samples|;
    assert 12 * n / 12 == n;
  }

  lemma {:induction false} RunIsRead(data: bytes, v: View, tfhd: Tfhd, track: Track, c: Cursor, samples: seq<Sample>,
                                     dataOffset: nat)
    requires ValidTrack(track) && |samples| < 0x1_0000_0000 && dataOffset < 0x8000_0000 && tfhd.base < 0x1_0000_0000
    requires v.dataStart <= v.end <= |data| && data[v.dataStart..v.end] == TrunNode(samples, dataOffset).body
    requires At(data, tfhd.base + dataOffset, Fmp4Mux.Payloads(samples)) && |Fmp4Mux.Payloads(samples)| < 0x1_0000_0000
    ensures OneRun(data, v, tfhd, track, c).Ok?
    ensures OneRun(data, v, tfhd, track, c).value.frames == c.frames + FramesOf(track, c.time, samples)
  {
    hide At, BeginRun, SamplesFrom, TrunNode, U32, FramesOf;
    var t := data[v.dataStart..v.end];
    RunBegins(data, t, tfhd, track, c.at, samples, dataOffset);
    TrunFields(t, samples, dataOffset);
    var r := Run(0, RUN_FLAGS, |samples|, None, tfhd, track);
    SamplesAreRead(data, t, r, Cursor(12, tfhd.base + dataOffset, c.time, c.frames), 0, samples);
  }

  // ---- one track fragment ----

  lemma {:induction false} TfhdIsRead(trackId: nat, moofStart: nat)
    requires trackId < 0x1_0000_0000
    ensures ReadTfhd(TfhdNode(trackId).body, moofStart) == Ok(Tfhd(trackId, moofStart, 0, 0, 0))
  {
    var d := TfhdNode(trackId).body;
    hide BE32, U32;
    assert At(d, 0, BE32(0x02_0000)) && At(d, 4, BE32(trackId));
    U32At(d, 0, 0x02_0000);
    U32At(d, 4, trackId);
    TfhdFlags();
    hide Has;
  }

  lemma {:induction false} TfhdFlags()
    ensures var f := 0x02_0000; !Has(f, 1) && !Has(f, 2) && !Has(f, 8) && !Has(f, 0x10) && !Has(f, 0x20)
  {
  }

  lemma {:induction false} TfdtIsRead(start: nat)
    requires start <= U64_MAX
    ensures ReadTfdt(TfdtNode(start).body) == Ok(start)
  {
    var d := TfdtNode(start).body;
    assert d[0] == BE32(0x100_0000)[0] == 1;
    hide BE32, BE64, U64;
    assert At(d, 4, BE64(start));
    U64At(d, 4, start);
  }

  function TrafChildren(trackId: nat, start: nat, samples: seq<Sample>, dataOffset: nat): seq<Node> {
    [TfhdNode(trackId), TfdtNode(start), TrunNode(samples, dataOffset)]
  }

  lemma {:induction false} Kinds()
    ensures TFHD != TFDT && TFHD != TRUN && TFDT != TRUN && MFHD != TRAF
    ensures STYP != MOOF && STYP != MDAT && MOOF != MDAT
  {
    assert TFHD[2] != TFDT[2] && TFHD[1] != TRUN[1] && TFDT[1] != TRUN[1] && MFHD[0] != TRAF[0];
    assert STYP[0] != MOOF[0] && STYP[0] != MDAT[0] && MOOF[1] != MDAT[1];
  }

  lemma {:induction false} ThreeViews(vs: seq<View>)
    requires |vs| == 3 && vs[0].kind == TFHD && vs[1].kind == TFDT && vs[2].kind == TRUN
    ensures First(vs, TFHD) == Some(vs[0]) && First(vs, TFDT) == Some(vs[1]) && Filtered(vs, TRUN) == [vs[2]]
  {
    Kinds();
    var a, b := vs[1..], vs[2..];
    assert a[0] == vs[1] && a[1..] == b && b[0] == vs[2] && b[1..] == [];
    assert Filtered(b, TRUN) == [vs[2]];
    assert Filtered(a, TRUN) == Filtered(b, TRUN);
  }

  /** A box of a written list, as the reader slices it. */
  lemma {:induction false} BodyOf(data: bytes, off: nat, ns: seq<Node>, i: nat)
    requires AllWritable(ns) && At(data, off, Encoded(ns)) && i < |ns|
    ensures var v := ViewsOf(ns, off)[i];
            && v.kind == ns[i].kind && off <= v.start && v.start + 8 == v.dataStart <= v.end <= |data|
            && data[v.dataStart..v.end] == ns[i].body
  {
    hide At, Encoded, ViewsOf, AllWritable;
    BoxLiesAt(data, off, ns, i);
    AtIs(data, ViewsOf(ns, off)[i].dataStart, ns[i].body);
  }

  lemma {:induction false} ChildrenWritable(trackId: nat, start: nat, samples: seq<Sample>, dataOffset: nat)
    requires 12 * |samples| + 20 < 0x1_0000_0000
    ensures AllWritable(TrafChildren(trackId, start, samples, dataOffset))
  {
    hide BE32, BE64, Rows;
  }

  lemma {:induction false} TrafIsRead(tracks: map<u32, Track>, data: bytes, moof: View, mdat: View, v: View,
                                      out: seq<MediaFrame>,
                   trackId: u32, start: nat, samples: seq<Sample>, dataOffset: nat)
    requires ValidTracks(tracks) && trackId in tracks && start <= U64_MAX && moof.start < 0x1_0000_0000
    requires 12 * |samples| + 20 < 0x1_0000_0000 && dataOffset < 0x8000_0000
    requires v.dataStart <= v.end <= |data|
    requires data[v.dataStart..v.end] == TrafNode(trackId, start, samples, dataOffset).body
    requires At(data, moof.start + dataOffset, Fmp4Mux.Payloads(samples)) && |Fmp4Mux.Payloads(samples)| < 0x1_0000_0000
    ensures Traf(tracks, data, moof, mdat, v, out) == Ok(out + FramesOf(tracks[trackId], start, samples))
  {
    hide Encoded, ViewsOf, Views, First, Filtered, TfhdNode, TfdtNode, TrunNode, OneRun, Runs, ReadTfhd, ReadTfdt;
    hide FramesOf;
    var ns := TrafChildren(trackId, start, samples, dataOffset);
    assert At(data, v.dataStart, Encoded(ns)) && v.end == v.dataStart + |Encoded(ns)|;
    hide At;
    ChildrenWritable(trackId, start, samples, dataOffset);
    EncodedIsRead(data, v.dataStart, ns);
    var vs := ViewsOf(ns, v.dataStart);
    NodeKinds(trackId, start, samples, dataOffset);
    BodyOf(data, v.dataStart, ns, 0);
    BodyOf(data, v.dataStart, ns, 1);
    BodyOf(data, v.dataStart, ns, 2);
    ThreeViews(vs);
    TfhdIsRead(trackId, moof.start);
    TfdtIsRead(start);
    var tfhd := Tfhd(trackId, moof.start, 0, 0, 0);
    var c := Cursor(0, mdat.dataStart, start, out);
    RunIsRead(data, vs[2], tfhd, tracks[trackId], c, samples, dataOffset);
    SingleRun(data, vs[2], tfhd, tracks[trackId], c);
  }

  lemma {:induction false} SingleRun(data: bytes, v: View, tfhd: Tfhd, track: Track, c: Cursor)
    requires v.dataStart <= v.end <= |data| && ValidTrack(track)
    ensures Runs(data, [v], tfhd, track, c) == OneRun(data, v, tfhd, track, c)
  {
    hide OneRun;
    assert [v][1..] == [];
  }

  lemma {:induction false} NodeKinds(trackId: nat, start: nat, samples: seq<Sample>, dataOffset: nat)
    ensures TfhdNode(trackId).kind == TFHD && TfdtNode(start).kind == TFDT && TrunNode(samples, dataOffset).kind == TRUN
  {
  }

  // ---- one segment ----

  function TrackFrames(tracks: map<u32, Track>, id: u32, start: nat, samples: seq<Sample>): seq<MediaFrame>
    requires ValidTracks(tracks) && (samples != [] ==> id in tracks)
  {
    if samples == [] then [] else FramesOf(tracks[id], start, samples)
  }

  function SegmentSize(video: seq<Sample>, audio: seq<Sample>): nat {
    24 + MoofSize(video, audio) + 8 + |Fmp4Mux.Payloads(video)| + |Fmp4Mux.Payloads(audio)|
  }

  /** Where the boxes of a segment lie. */
  lemma {:induction false} SegmentViews(sequence: nat, start: nat, video: seq<Sample>, audio: seq<Sample>)
    requires SegmentSize(video, audio) < 0x8000_0000
    ensures var ns := SegmentNodes(sequence, start, video, audio);
            var m := MoofSize(video, audio);
            var data := Encoded(ns);
            var vs := ViewsOf(ns, 0);
            && AllWritable(ns) && |data| == SegmentSize(video, audio) && |vs| == 3
            && vs[0].kind == STYP && vs[1] == View(MOOF, 24, 32, 24 + m)
            && vs[2] == View(MDAT, 24 + m, 32 + m, |data|)
            && ns[1].body == MoofNode(sequence, start, video, audio, m + 8).body
            && ns[2].body == Fmp4Mux.Payloads(video) + Fmp4Mux.Payloads(audio)
  {
    hide MakeBox, Encoded, Fmp4Mux.Payloads, MoofNode, MoofSize;
    var ns := SegmentNodes(sequence, start, video, audio);
    var m := MoofSize(video, audio);
    MoofIsSized(sequence, start, video, audio, m + 8);
    MoofKind(sequence, start, video, audio, m + 8);
    EncodedThree(ns[0], ns[1], ns[2]);
    hide ViewsOf;
    ThreeViewsOf(ns[0], ns[1], ns[2]);
    assert |MSDH + MSIX + ISO6 + CMFC| == 16;
  }

  lemma {:induction false} ThreeViewsOf(a: Node, b: Node, c: Node)
    ensures var p, q := 8 + |a.body|, 16 + |a.body| + |b.body|;
            ViewsOf([a, b, c], 0)
            == [View(a.kind, 0, 8, p), View(b.kind, p, p + 8, q), View(c.kind, q, q + 8, q + 8 + |c.body|)]
  {
    assert [a, b, c][1..] == [b, c] && [b, c][1..] == [c] && [c][1..] == [];
    var q := 16 + |a.body| + |b.body|;
    assert ViewsOf([c], q) == [View(c.kind, q, q + 8, q + 8 + |c.body|)];
  }

  lemma {:induction false} TopViews(vs: seq<View>)
    requires |vs| == 3 && vs[0].kind == STYP && vs[1].kind == MOOF && vs[2].kind == MDAT
    ensures First(vs, MOOF) == Some(vs[1]) && First(vs, MDAT) == Some(vs[2])
  {
    Kinds();
    var a, b := vs[1..], vs[2..];
    assert a[0] == vs[1] && a[1..] == b && b[0] == vs[2];
    assert First(b, MDAT) == Some(vs[2]);
  }

  function MoofChildren(sequence: nat, start: nat, video: seq<Sample>, audio: seq<Sample>, dataOffset: nat): seq<Node> {
    [MfhdNode(sequence)] + Trafs(start, video, audio, dataOffset)
  }

  lemma {:induction false} TrafNodeFacts(trackId: nat, start: nat, samples: seq<Sample>, dataOffset: nat)
    ensures TrafNode(trackId, start, samples, dataOffset).kind == TRAF
    ensures samples != [] ==> 8 + |TrafNode(trackId, start, samples, dataOffset).body| == TrafSize(samples)
  {
    TrafIsSized(trackId, start, samples, dataOffset);
    hide Encoded;
  }

  lemma {:induction false} MoofChildrenFacts(sequence: nat, start: nat, video: seq<Sample>, audio: seq<Sample>,
                                             dataOffset: nat)
    requires MoofSize(video, audio) < 0x8000_0000
    ensures var ns := MoofChildren(sequence, start, video, audio, dataOffset);
            && AllWritable(ns) && ns != [] && ns[0].kind == MFHD && forall i :: 1 <= i < |ns| ==> ns[i].kind == TRAF
  {
    hide TrafNode, BE32, Fmp4Mux.Payloads;
    TrafNodeFacts(1, start, video, dataOffset);
    TrafNodeFacts(2, start, audio, dataOffset + |Fmp4Mux.Payloads(video)|);
  }

  lemma {:induction false} AllOfKind(vs: seq<View>, kind: FourCc)
    requires forall v :: v in vs ==> v.kind == kind
    ensures Filtered(vs, kind) == vs
  {
    if vs != [] {
      AllOfKind(vs[1..], kind);
    }
  }

  lemma {:induction false} AllButFirst(vs: seq<View>, kind: FourCc)
    requires vs != [] && vs[0].kind != kind && forall i :: 1 <= i < |vs| ==> vs[i].kind == kind
    ensures Filtered(vs, kind) == vs[1..]
  {
    AllOfKind(vs[1..], kind);
    assert [] + vs[1..] == vs[1..];
  }

  lemma {:induction false} OneTraf(tracks: map<u32, Track>, data: bytes, moof: View, mdat: View, v: View,
                                   rest: seq<View>, out: seq<MediaFrame>)
    requires ValidTracks(tracks) && v.end <= |data| && forall w :: w in rest ==> w.end <= |data|
    requires Traf(tracks, data, moof, mdat, v, out).Ok?
    ensures TrafsFrom(tracks, data, moof, mdat, [v] + rest, out)
            == TrafsFrom(tracks, data, moof, mdat, rest, Traf(tracks, data, moof, mdat, v, out).value)
  {
    hide Traf;
    assert ([v] + rest)[1..] == rest;
  }

  /** The place of a segment's boxes and media data inside `data`. */
  ghost predicate Placed(data: bytes, moof: View, mdat: View, ns: seq<Node>, video: seq<Sample>, audio: seq<Sample>) {
    && |data| < 0x8000_0000
    && moof.start + 8 == moof.dataStart <= moof.end <= |data|
    && AllWritable(ns) && At(data, moof.dataStart, Encoded(ns))
    && At(data, moof.start + MoofSize(video, audio) + 8, Fmp4Mux.Payloads(video))
    && At(data, moof.start + MoofSize(video, audio) + 8 + |Fmp4Mux.Payloads(video)|, Fmp4Mux.Payloads(audio))
  }

  lemma {:induction false} PlacedSizes(data: bytes, moof: View, mdat: View, ns: seq<Node>, video: seq<Sample>,
                                       audio: seq<Sample>)
    requires Placed(data, moof, mdat, ns, video, audio)
    ensures moof.start + MoofSize(video, audio) + 8
            + |Fmp4Mux.Payloads(video)| + |Fmp4Mux.Payloads(audio)| < 0x8000_0000
  {
    hide Fmp4Mux.Payloads, Encoded, AllWritable;
    AtIs(data, moof.start + MoofSize(video, audio) + 8 + |Fmp4Mux.Payloads(video)|, Fmp4Mux.Payloads(audio));
  }

  /** The `i`-th box of the `moof` payload is a track fragment with these samples. */
  lemma {:induction false} PlacedTraf(tracks: map<u32, Track>, data: bytes, moof: View, mdat: View, ns: seq<Node>,
                                      video: seq<Sample>,
                   audio: seq<Sample>, i: nat, id: u32, start: nat, out: seq<MediaFrame>)
    requires Placed(data, moof, mdat, ns, video, audio) && ValidTracks(tracks) && id in tracks && start <= U64_MAX
    requires i < |ns| && (id == 1 || id == 2)
    requires var samples := if id == 1 then video else audio;
             var off := MoofSize(video, audio) + 8 + if id == 1 then 0 else |Fmp4Mux.Payloads(video)|;
             samples != [] && ns[i] == TrafNode(id, start, samples, off)
    ensures var v := ViewsOf(ns, moof.dataStart)[i];
            var samples := if id == 1 then video else audio;
            && v.end <= |data|
            && Traf(tracks, data, moof, mdat, v, out) == Ok(out + FramesOf(tracks[id], start, samples))
  {
    hide Fmp4Mux.Payloads, Encoded, AllWritable, TrafNode, ViewsOf, Traf, FramesOf, At;
    PlacedSizes(data, moof, mdat, ns, video, audio);
    BodyOf(data, moof.dataStart, ns, i);
    var samples := if id == 1 then video else audio;
    var off := MoofSize(video, audio) + 8 + if id == 1 then 0 else |Fmp4Mux.Payloads(video)|;
    TrafIsRead(tracks, data, moof, mdat, ViewsOf(ns, moof.dataStart)[i], out, id, start, samples, off);
  }

  lemma {:induction false} TrafsAreRead(tracks: map<u32, Track>, data: bytes, moof: View, mdat: View, sequence: nat,
                                        start: nat, video: seq<Sample>, audio: seq<Sample>)
    requires ValidTracks(tracks) && start <= U64_MAX
    requires (video != [] ==> 1 in tracks) && (audio != [] ==> 2 in tracks)
    requires Placed(data, moof, mdat, MoofChildren(sequence, start, video, audio, MoofSize(video, audio) + 8),
                    video, audio)
    ensures var ns := MoofChildren(sequence, start, video, audio, MoofSize(video, audio) + 8);
            var vs := ViewsOf(ns, moof.dataStart)[1..];
            && (forall v :: v in vs ==> v.end <= |data|)
            && TrafsFrom(tracks, data, moof, mdat, vs, [])
               == Ok(TrackFrames(tracks, 1, start, video) + TrackFrames(tracks, 2, start, audio))
  {
    hide Fmp4Mux.Payloads, Encoded, AllWritable, TrafNode, ViewsOf, Traf, FramesOf, Placed, MfhdNode;
    var ns := MoofChildren(sequence, start, video, audio, MoofSize(video, audio) + 8);
    var vs := ViewsOf(ns, moof.dataStart);
    NoTrafs(tracks, data, moof, mdat);
    if video != [] {
      PlacedTraf(tracks, data, moof, mdat, ns, video, audio, 1, 1, start, []);
      var one := FramesOf(tracks[1], start, video);
      assert [] + one == one && one + [] == one;
      if audio != [] {
        PlacedTraf(tracks, data, moof, mdat, ns, video, audio, 2, 2, start, one);
        assert vs[1..] == [vs[1]] + [vs[2]] && [vs[2]] + [] == [vs[2]];
        OneTraf(tracks, data, moof, mdat, vs[1], [vs[2]], []);
        OneTraf(tracks, data, moof, mdat, vs[2], [], one);
      } else {
        assert vs[1..] == [vs[1]] + [];
        OneTraf(tracks, data, moof, mdat, vs[1], [], []);
      }
    } else if audio != [] {
      PlacedTraf(tracks, data, moof, mdat, ns, video, audio, 1, 2, start, []);
      assert vs[1..] == [vs[1]] + [];
      OneTraf(tracks, data, moof, mdat, vs[1], [], []);
    } else {
      assert vs[1..] == [];
    }
  }

  lemma {:induction false} NoTrafs(tracks: map<u32, Track>, data: bytes, moof: View, mdat: View)
    requires ValidTracks(tracks)
    ensures forall out :: TrafsFrom(tracks, data, moof, mdat, [], out) == Ok(out)
  {
  }

  lemma {:induction false} SegmentPlaced(sequence: nat, start: nat, video: seq<Sample>, audio: seq<Sample>)
    requires SegmentSize(video, audio) < 0x8000_0000
    ensures var data := Encoded(SegmentNodes(sequence, start, video, audio));
            var m := MoofSize(video, audio);
            var ns := MoofChildren(sequence, start, video, audio, m + 8);
            && |data| == SegmentSize(video, audio)
            && Placed(data, View(MOOF, 24, 32, 24 + m), View(MDAT, 24 + m, 32 + m, |data|), ns, video, audio)
            && 24 + m == 32 + |Encoded(ns)|
  {
    hide Encoded, AllWritable, Fmp4Mux.Payloads, ViewsOf, At, MoofChildren, SegmentNodes, MoofSize;
    var ns := SegmentNodes(sequence, start, video, audio);
    var data := Encoded(ns);
    var m := MoofSize(video, audio);
    SegmentViews(sequence, start, video, audio);
    SegmentCount(sequence, start, video, audio);
    AtSelf(data);
    BoxLiesAt(data, 0, ns, 1);
    BoxLiesAt(data, 0, ns, 2);
    AtSplit(data, 32 + m, Fmp4Mux.Payloads(video), Fmp4Mux.Payloads(audio));
    MoofIsSized(sequence, start, video, audio, m + 8);
    MoofBodyIs(sequence, start, video, audio, m + 8);
    MoofSmall(video, audio);
    MoofChildrenFacts(sequence, start, video, audio, m + 8);
  }

  lemma {:induction false} SegmentCount(sequence: nat, start: nat, video: seq<Sample>, audio: seq<Sample>)
    ensures |SegmentNodes(sequence, start, video, audio)| == 3
  {
  }

  lemma {:induction false} MoofBodyIs(sequence: nat, start: nat, video: seq<Sample>, audio: seq<Sample>,
                                      dataOffset: nat)
    ensures MoofNode(sequence, start, video, audio, dataOffset).body
            == Encoded(MoofChildren(sequence, start, video, audio, dataOffset))
  {
    hide Encoded;
  }

  lemma {:induction false} MoofSmall(video: seq<Sample>, audio: seq<Sample>)
    requires SegmentSize(video, audio) < 0x8000_0000
    ensures MoofSize(video, audio) < 0x8000_0000
  {
  }

  /** Reading a written segment gives the samples of both tracks, merged by decode time. */
  lemma {:induction false} SegmentRoundTrip(tracks: map<u32, Track>, sequence: nat, start: nat, video: seq<Sample>,
                                            audio: seq<Sample>)
    requires ValidTracks(tracks) && start <= U64_MAX
    requires (video != [] ==> 1 in tracks) && (audio != [] ==> 2 in tracks)
    requires SegmentSize(video, audio) < 0x8000_0000
    ensures DemuxFragment(tracks, Encoded(SegmentNodes(sequence, start, video, audio)))
            == Ok(Sort(TrackFrames(tracks, 1, start, video) + TrackFrames(tracks, 2, start, audio)))
  {
    hide Encoded, AllWritable, ViewsOf, At, MoofChildren, SegmentNodes, MoofSize, Placed, Views, First, Filtered,
      TrackFrames, TrafsFrom, Sort, SegmentSize;
    var ns := SegmentNodes(sequence, start, video, audio);
    var data := Encoded(ns);
    var m := MoofSize(video, audio);
    SegmentViews(sequence, start, video, audio);
    AtSelf(data);
    EncodedIsRead(data, 0, ns);
    var vs := ViewsOf(ns, 0);
    TopViews(vs);
    SegmentPlaced(sequence, start, video, audio);
    var moof, mdat := vs[1], vs[2];
    var inner := MoofChildren(sequence, start, video, audio, m + 8);
    PlacedViews(data, moof, mdat, inner, video, audio);
    MoofSmall(video, audio);
    MoofChildrenFacts(sequence, start, video, audio, m + 8);
    InnerKinds(inner, moof.dataStart);
    AllButFirst(ViewsOf(inner, moof.dataStart), TRAF);
    TrafsAreRead(tracks, data, moof, mdat, sequence, start, video, audio);
  }

  lemma {:induction false} PlacedViews(data: bytes, moof: View, mdat: View, ns: seq<Node>, video: seq<Sample>,
                                       audio: seq<Sample>)
    requires Placed(data, moof, mdat, ns, video, audio) && moof.end == moof.dataStart + |Encoded(ns)|
    ensures moof.end <= |data| && Views(data, moof.dataStart, moof.end) == Ok(ViewsOf(ns, moof.dataStart))
  {
    hide Encoded, ViewsOf, At, AllWritable, Views, Fmp4Mux.Payloads;
    EncodedIsRead(data, moof.dataStart, ns);
  }

  lemma {:induction false} ViewKinds(ns: seq<Node>, off: nat, i: nat)
    requires i < |ns|
    ensures ViewsOf(ns, off)[i].kind == ns[i].kind
    decreases i
  {
    if i > 0 {
      ViewKinds(ns[1..], off + 8 + |ns[0].body|, i - 1);
    }
  }

  lemma {:induction false} InnerKinds(ns: seq<Node>, off: nat)
    requires ns != [] && ns[0].kind == MFHD && forall i :: 1 <= i < |ns| ==> ns[i].kind == TRAF
    ensures var vs := ViewsOf(ns, off);
            vs != [] && vs[0].kind != TRAF && forall i :: 1 <= i < |vs| ==> vs[i].kind == TRAF
  {
    hide ViewsOf;
    Kinds();
    forall i: nat | i < |ns|
      ensures ViewsOf(ns, off)[i].kind == ns[i].kind
    {
      ViewKinds(ns, off, i);
    }
  }

  // ---- the order of the frames ----

  function OfTrack(s: seq<MediaFrame>, id: u32): seq<MediaFrame> {
    if s == [] then [] else (if s[0].trackId == id then [s[0]] else []) + OfTrack(s[1..], id)
  }

  predicate Ordered(s: seq<MediaFrame>) {
    forall i, j :: 0 <= i < j < |s| ==> Before(s[i], s[j])
  }

  lemma {:induction false} InsertAdds(f: MediaFrame, s: seq<MediaFrame>)
    ensures multiset(Insert(f, s)) == multiset(s) + multiset{f}
  {
    hide Before;
    if s != [] && !Before(f, s[0]) {
      assert s == [s[0]] + s[1..];
      InsertAdds(f, s[1..]);
    }
  }

  lemma {:induction false} OrderedPrepend(f: MediaFrame, s: seq<MediaFrame>)
    requires Ordered(s) && forall g :: g in s ==> Before(f, g)
    ensures Ordered([f] + s)
  {
    hide Before;
  }

  lemma {:induction false} InsertKeepsOrder(f: MediaFrame, s: seq<MediaFrame>)
    requires Ordered(s)
    ensures Ordered(Insert(f, s)) && multiset(Insert(f, s)) == multiset(s) + multiset{f}
  {
    InsertAdds(f, s);
    if s == [] || Before(f, s[0]) {
      OrderedPrepend(f, s);
    } else {
      var t := Insert(f, s[1..]);
      InsertKeepsOrder(f, s[1..]);
      hide Insert;
      forall g | g in t
        ensures Before(s[0], g)
      {
        assert g in multiset(t);
      }
      hide Ordered, Before;
      OrderedPrepend(s[0], t);
    }
  }

  /** The output is sorted and holds exactly the input. */
  lemma {:induction false} SortSorts(s: seq<MediaFrame>)
    ensures Ordered(Sort(s)) && multiset(Sort(s)) == multiset(s)
  {
    if s != [] {
      assert s == [s[0]] + s[1..];
      SortSorts(s[1..]);
      InsertKeepsOrder(s[0], Sort(s[1..]));
    }
  }

  lemma {:induction false} OfTrackOrdered(s: seq<MediaFrame>, id: u32)
    requires Ordered(s)
    ensures Ordered(OfTrack(s, id)) && forall g :: g in OfTrack(s, id) ==> g in s && g.trackId == id
  {
    if s != [] {
      OfTrackOrdered(s[1..], id);
    }
  }

  lemma {:induction false} InsertOfTrack(f: MediaFrame, s: seq<MediaFrame>, id: u32)
    requires Ordered(s)
    ensures OfTrack(Insert(f, s), id) == if f.trackId == id then Insert(f, OfTrack(s, id)) else OfTrack(s, id)
  {
    if s == [] || Before(f, s[0]) {
      assert ([f] + s)[1..] == s;
      OfTrackOrdered(s, id);
      InsertFront(f, s, OfTrack(s, id));
      assert [] + OfTrack(s, id) == OfTrack(s, id);
    } else {
      var rest := s[1..];
      InsertOfTrack(f, rest, id);
      assert ([s[0]] + Insert(f, rest))[1..] == Insert(f, rest);
      assert ([s[0]] + OfTrack(rest, id))[1..] == OfTrack(rest, id);
      assert [] + OfTrack(rest, id) == OfTrack(rest, id);
      assert [] + OfTrack(Insert(f, rest), id) == OfTrack(Insert(f, rest), id);
    }
  }

  lemma {:induction false} InsertFront(f: MediaFrame, s: seq<MediaFrame>, t: seq<MediaFrame>)
    requires Ordered(s) && (s == [] || Before(f, s[0])) && forall g :: g in t ==> g in s
    ensures Insert(f, t) == [f] + t
  {
    if t != [] {
      assert t[0] in t && t[0] in s;
    }
  }

  /** Sorting does not reorder one track whose frames already come in order. */
  lemma {:induction false} SortKeepsTrack(s: seq<MediaFrame>, id: u32)
    requires Ordered(OfTrack(s, id))
    ensures OfTrack(Sort(s), id) == OfTrack(s, id)
  {
    if s != [] {
      var rest := OfTrack(s[1..], id);
      assert OfTrack(s, id) == (if s[0].trackId == id then [s[0]] else []) + rest;
      OrderedDrop(OfTrack(s, id), if s[0].trackId == id then 1 else 0);
      assert rest == OfTrack(s, id)[if s[0].trackId == id then 1 else 0..];
      SortKeepsTrack(s[1..], id);
      SortSorts(s[1..]);
      InsertOfTrack(s[0], Sort(s[1..]), id);
      if s[0].trackId == id && rest != [] {
        assert Before(OfTrack(s, id)[0], OfTrack(s, id)[1]);
      }
      assert [] + rest == rest;
    }
  }

  lemma {:induction false} OrderedDrop(s: seq<MediaFrame>, d: nat)
    requires d <= |s| && Ordered(s)
    ensures Ordered(s[d..])
  {
    hide Before;
    forall i, j | 0 <= i < j < |s[d..]|
      ensures Before(s[d..][i], s[d..][j])
    {
      assert Before(s[i + d], s[j + d]);
    }
  }

  lemma {:induction false} OfTrackAppend(a: seq<MediaFrame>, b: seq<MediaFrame>, id: u32)
    ensures OfTrack(a + b, id) == OfTrack(a, id) + OfTrack(b, id)
  {
    if a == [] {
      assert a + b == b;
    } else {
      assert (a + b)[1..] == a[1..] + b;
      OfTrackStep(a + b, id);
      OfTrackStep(a, id);
      hide OfTrack;
      OfTrackAppend(a[1..], b, id);
      Assoc(if a[0].trackId == id then [a[0]] else [], OfTrack(a[1..], id), OfTrack(b, id));
    }
  }

  lemma {:induction false} OfTrackStep(s: seq<MediaFrame>, id: u32)
    requires s != []
    ensures OfTrack(s, id) == (if s[0].trackId == id then [s[0]] else []) + OfTrack(s[1..], id)
  {
  }

  // ---- the frames of a track ----

  lemma {:induction false} MsMonotone(a: nat, b: nat, timescale: u32)
    requires a <= b && 0 < timescale
    ensures Ms(a, timescale) <= Ms(b, timescale)
  {
    DivMonotone(Clamp(a * 1000), Clamp(b * 1000), timescale);
  }

  lemma {:induction false} FrameFields(track: Track, time: nat, data: bytes, key: bool)
    requires ValidTrack(track)
    ensures var f := Frame(track, time, 0, data, key);
            && f.trackId == track.id && f.data == data && f.dts == Ms(time, track.timescale)
            && (track.codec != AAC ==> f.keyFrame == key)
  {
    hide Ms;
  }

  /** The frames of one track carry its samples and come in decode order. */
  lemma {:induction false} FramesCarry(track: Track, time: nat, samples: seq<Sample>)
    requires ValidTrack(track) && time <= U64_MAX
    ensures var fs := FramesOf(track, time, samples);
            && |fs| == |samples| && Ordered(fs)
            && (forall i :: 0 <= i < |fs| ==>
                  && fs[i].trackId == track.id && fs[i].data == samples[i].data
                  && (track.codec != AAC ==> fs[i].keyFrame == samples[i].sync)
                  && Ms(time, track.timescale) <= fs[i].dts)
    decreases |samples|
  {
    hide Frame, Ms;
    if samples != [] {
      var next := Clamp(time + samples[0].duration);
      FramesCarry(track, next, samples[1..]);
      FrameFields(track, time, samples[0].data, samples[0].sync);
      MsMonotone(time, next, track.timescale);
    }
  }

  function Elapsed(samples: seq<Sample>, i: nat): nat
    requires i <= |samples|
  {
    if i == 0 then 0 else Elapsed(samples, i - 1) + samples[i - 1].duration
  }

  lemma {:induction false} ElapsedShift(samples: seq<Sample>, i: nat)
    requires 0 < i <= |samples|
    ensures Elapsed(samples, i) == samples[0].duration + Elapsed(samples[1..], i - 1)
  {
    if i > 1 {
      ElapsedShift(samples, i - 1);
    }
  }

  /** The decode time of a frame is the start plus the durations before it, in milliseconds rounded down. */
  lemma {:induction false} DecodeTime(track: Track, time: nat, samples: seq<Sample>, i: nat)
    requires ValidTrack(track) && i < |samples| && (time + Elapsed(samples, i)) * 1000 <= U64_MAX
    ensures i < |FramesOf(track, time, samples)|
    ensures FramesOf(track, time, samples)[i].dts == (time + Elapsed(samples, i)) * 1000 / track.timescale
    decreases i
  {
    hide Frame;
    if i == 0 {
      FrameFields(track, time, samples[0].data, samples[0].sync);
    } else {
      ElapsedShift(samples, i);
      DecodeTime(track, time + samples[0].duration, samples[1..], i - 1);
    }
  }

  lemma {:induction false} OwnTrack(fs: seq<MediaFrame>, id: u32, owner: u32)
    requires forall f :: f in fs ==> f.trackId == owner
    ensures OfTrack(fs, id) == if id == owner then fs else []
  {
    if fs != [] {
      OwnTrack(fs[1..], id, owner);
    }
  }

  lemma {:induction false} TrackFramesOf(tracks: map<u32, Track>, id: u32, start: nat, samples: seq<Sample>)
    requires ValidTracks(tracks) && (samples != [] ==> id in tracks) && start <= U64_MAX
    ensures var fs := TrackFrames(tracks, id, start, samples);
            Ordered(fs) && forall f :: f in fs ==> f.trackId == id
  {
    hide FramesOf;
    if samples != [] {
      FramesCarry(tracks[id], start, samples);
    }
  }

  /** Track by track, a reader gets exactly the written samples in their order. */
  lemma {:induction false} SegmentKeepsTracks(tracks: map<u32, Track>, sequence: nat, start: nat, video: seq<Sample>,
                                              audio: seq<Sample>)
    requires ValidTracks(tracks) && start <= U64_MAX
    requires (video != [] ==> 1 in tracks) && (audio != [] ==> 2 in tracks)
    requires SegmentSize(video, audio) < 0x8000_0000
    ensures var r := DemuxFragment(tracks, Encoded(SegmentNodes(sequence, start, video, audio)));
            && r.Ok? && Ordered(r.value) && |r.value| == |video| + |audio|
            && OfTrack(r.value, 1) == TrackFrames(tracks, 1, start, video)
            && OfTrack(r.value, 2) == TrackFrames(tracks, 2, start, audio)
  {
    hide *;
    SegmentRoundTrip(tracks, sequence, start, video, audio);
    var v, a := TrackFrames(tracks, 1, start, video), TrackFrames(tracks, 2, start, audio);
    TrackFramesOf(tracks, 1, start, video);
    TrackFramesOf(tracks, 2, start, audio);
    TrackFrameCount(tracks, 1, start, video);
    TrackFrameCount(tracks, 2, start, audio);
    OfTrackAppend(v, a, 1);
    OfTrackAppend(v, a, 2);
    OwnTrack(v, 1, 1);
    OwnTrack(a, 1, 2);
    OwnTrack(v, 2, 1);
    OwnTrack(a, 2, 2);
    assert v + [] == v && [] + a == a;
    SortKeepsTrack(v + a, 1);
    SortKeepsTrack(v + a, 2);
    SortSorts(v + a);
    SortCounts(v + a);
  }

  lemma {:induction false} SortCounts(s: seq<MediaFrame>)
    ensures |Sort(s)| == |s|
  {
    hide Sort, Ordered;
    SortSorts(s);
    assert |Sort(s)| == |multiset(Sort(s))| == |multiset(s)|;
  }

  lemma {:induction false} TrackFrameCount(tracks: map<u32, Track>, id: u32, start: nat, samples: seq<Sample>)
    requires ValidTracks(tracks) && (samples != [] ==> id in tracks) && start <= U64_MAX
    ensures |TrackFrames(tracks, id, start, samples)| == |samples|
  {
    if samples != [] {
      FramesCarry(tracks[id], start, samples);
    }
  }
}
