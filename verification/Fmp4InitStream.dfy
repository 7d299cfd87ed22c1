/** Reading back a written initialisation segment. */
module Fmp4InitStream {
  import opened Bytes
  import opened Frames
  import opened Boxes
  import opened Fmp4Demux
  import opened Fmp4Run
  import opened Fmp4Init
  import Fmp4Mux
  import Fmp4Stream

  // ---- the decoder configuration of AAC ----

  lemma {:induction false} EsdsBytes(asc: bytes)
    ensures var d := EsdsBody(asc);
            && d[4] == 3 && d[5] == 0x19 && d[24] == 5 && d[25] == |asc| % 0x100 && d[26..26 + |asc|] == asc
            && forall i :: 6 <= i < 24 ==> d[i] != 5
  {
    var d := EsdsBody(asc);
    assert d[..6] == ESDS_START && d[6..24] == ESDS_MIDDLE && d[24..26] == [5, |asc| % 0x100];
    assert d[4] == d[..6][4] && d[5] == d[..6][5] && d[24] == d[24..26][0] && d[25] == d[24..26][1];
    assert 5 !in ESDS_MIDDLE;
    assert forall i :: 6 <= i < 24 ==> d[i] == d[6..24][i - 6];
  }

  lemma {:induction false} PositionIs(d: bytes, off: nat, end: nat, x: byte, p: nat)
    requires off <= p < end <= |d| && d[p] == x && forall i :: off <= i < p ==> d[i] != x
    ensures Position(d, off, end, x) == p
    decreases p - off
  {
    if off < p {
      PositionIs(d, off + 1, end, x, p);
    }
  }

  lemma {:induction false} ShortLength(d: bytes, off: nat)
    requires off < |d| && d[off] < 0x80
    ensures LengthFrom(d, off, 0, 4) == Some(Field(d[off], off + 1))
  {
  }

  /** The fixed descriptor length 0x19 covers exactly configurations of up to five bytes. */
  lemma {:induction false} EsdsRoundTrip(asc: bytes)
    ensures var d := EsdsBody(asc); AscFrom(d, Min(|d|, 4)) == asc <==> |asc| == 0 || 2 <= |asc| <= 5
  {
    hide EsdsBody, LengthFrom, Position;
    var d := EsdsBody(asc);
    EsdsBytes(asc);
    ShortLength(d, 5);
    if 2 <= |asc| {
      PositionIs(d, 6, 31, 5, 24);
      if |asc| <= 5 {
        ShortLength(d, 25);
      }
    }
  }

  /** A configuration of six bytes, as AAC with an explicit extension can have, is lost. */
  lemma {:induction false} EsdsCanLose()
    ensures var asc: bytes := [0x2b, 0x11, 0x88, 0x00, 0x06, 0x01];
            AscFrom(EsdsBody(asc), 4) != asc
  {
    hide EsdsBody, AscFrom;
    var asc: bytes := [0x2b, 0x11, 0x88, 0x00, 0x06, 0x01];
    EsdsBytes(asc);
    EsdsRoundTrip(asc);
  }

  // ---- finding written boxes ----

  /** View `v` shows box `n`. */
  ghost predicate Holds(data: bytes, v: View, n: Node) {
    v.kind == n.kind && v.dataStart <= v.end <= |data| && data[v.dataStart..v.end] == n.body
  }

  lemma {:induction false} PartsFit(ns: seq<Node>)
    requires |Encoded(ns)| < 0x1_0000_0000
    ensures AllWritable(ns)
  {
    if ns != [] {
      EncodedSplit(ns);
      PartsFit(ns[1..]);
    }
  }

  lemma {:induction false} FirstOfKind(vs: seq<View>, ns: seq<Node>, i: nat)
    requires |vs| == |ns| && i < |ns| && forall j :: 0 <= j < |ns| ==> vs[j].kind == ns[j].kind
    requires forall j :: 0 <= j < i ==> ns[j].kind != ns[i].kind
    ensures First(vs, ns[i].kind) == Some(vs[i])
    decreases i
  {
    if i > 0 {
      assert ns[0].kind != ns[i].kind;
      assert ns[1..][i - 1].kind == ns[i].kind;
      FirstOfKind(vs[1..], ns[1..], i - 1);
    }
  }

  lemma {:induction false} KindsOf(ns: seq<Node>, off: nat)
    ensures forall j :: 0 <= j < |ns| ==> ViewsOf(ns, off)[j].kind == ns[j].kind
  {
    hide ViewsOf;
    forall j: nat | j < |ns|
      ensures ViewsOf(ns, off)[j].kind == ns[j].kind
    {
      Fmp4Stream.ViewKinds(ns, off, j);
    }
  }

  lemma {:induction false} ChildrenAre(data: bytes, v: View, kind: FourCc, ns: seq<Node>)
    requires Holds(data, v, Node(kind, Encoded(ns))) && |data| < 0x1_0000_0000
    ensures Views(data, v.dataStart, v.end) == Ok(ViewsOf(ns, v.dataStart))
    ensures forall i :: 0 <= i < |ns| ==> Holds(data, ViewsOf(ns, v.dataStart)[i], ns[i])
  {
    assert At(data, v.dataStart, Encoded(ns)) && v.end == v.dataStart + |Encoded(ns)|;
    hide At, Encoded, ViewsOf, AllWritable, Views;
    PartsFit(ns);
    EncodedIsRead(data, v.dataStart, ns);
    forall i: nat | i < |ns|
      ensures Holds(data, ViewsOf(ns, v.dataStart)[i], ns[i])
    {
      Fmp4Stream.BodyOf(data, v.dataStart, ns, i);
    }
  }

  /** The first child of its kind is found and shows what was written. */
  lemma {:induction false} ChildIs(data: bytes, v: View, kind: FourCc, ns: seq<Node>, i: nat)
    requires Holds(data, v, Node(kind, Encoded(ns))) && |data| < 0x1_0000_0000 && i < |ns|
    requires forall j :: 0 <= j < i ==> ns[j].kind != ns[i].kind
    ensures v.end <= |data|
    ensures Child(data, v, ns[i].kind) == Ok(Some(ViewsOf(ns, v.dataStart)[i]))
    ensures Holds(data, ViewsOf(ns, v.dataStart)[i], ns[i])
  {
    ChildrenAre(data, v, kind, ns);
    hide Encoded, ViewsOf, Views, First;
    KindsOf(ns, v.dataStart);
    FirstOfKind(ViewsOf(ns, v.dataStart), ns, i);
  }

  // ---- the sample entry ----

  lemma {:induction false} EntryKinds()
    ensures EntryOf(AVC1) == Ok(Entry(H264, 86, AVCC)) && EntryOf(HVC1) == Ok(Entry(H265, 86, HVCC))
    ensures EntryOf(MP4A) == Ok(Entry(AAC, 36, ESDS))
  {
    assert HVC1[0] != AVC1[0] && HVC1[0] != AVC3[0];
    assert MP4A[0] != AVC1[0] && MP4A[0] != AVC3[0] && MP4A[0] != HVC1[0] && MP4A[0] != HEV1[0];
  }

  function EntryKind(codec: CodecId): FourCc {
    if codec == H264 then AVC1 else if codec == H265 then HVC1 else MP4A
  }

  function ConfigKind(codec: CodecId): FourCc {
    if codec == H264 then AVCC else if codec == H265 then HVCC else ESDS
  }

  function Head(c: Config, width: nat, height: nat, timescale: nat): bytes {
    if c.codec == AAC then AudioHead(timescale, CHANNELS) else VisualHead(width, height)
  }

  function Record(c: Config): bytes {
    if c.codec == AAC then EsdsBody(AudioRecord(c.data)) else VideoRecord(c.data)
  }

  predicate Supported(c: Config) {
    c.codec == H264 || c.codec == H265 || c.codec == AAC
  }

  lemma {:induction false} EntryIs(c: Config, width: nat, height: nat, timescale: nat)
    requires Supported(c)
    ensures SampleEntry(c, width, height, timescale)
            == MakeBox(EntryKind(c.codec), Head(c, width, height, timescale) + MakeBox(ConfigKind(c.codec), Record(c)))
    ensures |Head(c, width, height, timescale)| == if c.codec == AAC then 28 else 78
    ensures EntryOf(EntryKind(c.codec)).Ok?
    ensures EntryOf(EntryKind(c.codec)).value
            == Entry(c.codec, 8 + |Head(c, width, height, timescale)|, ConfigKind(c.codec))
  {
    EntryKinds();
    hide MakeBox, AudioHead, VisualHead, EsdsBody, EntryOf;
  }

  /** What the reader makes of the configuration. */
  function ReadConfig(c: Config): bytes {
    if c.codec == AAC then AscFrom(Record(c), Min(|Record(c)|, 4)) else Record(c)
  }

  lemma {:induction false} ChannelsAt(d: bytes, timescale: nat)
    requires At(d, 16, AudioHead(timescale, CHANNELS))
    ensures 34 <= |d| && U16(d, 32) == CHANNELS
  {
    hide U16;
    var a, b := Zeros(6) + BE16(1) + Zeros(8), BE16(CHANNELS);
    var e := BE16(16) + BE16(0) + BE16(0) + BE32(timescale * 0x1_0000);
    assert AudioHead(timescale, CHANNELS) == a + b + e && |a| == 16 && |b| == 2;
    hide BE16, BE32, Zeros, AudioHead, At;
    AtIs(d, 16, a + b + e);
    AtSplit(d, 16, a + b, e);
    AtSplit(d, 16, a, b);
    U16At(d, 32, CHANNELS);
  }

  /** The layout of an `stsd` payload: counts, then the entry header, its head and its configuration box. */
  lemma {:induction false} StsdLayout(d: bytes, kind: FourCc, head: bytes, box: bytes)
    requires d == BE32(0) + BE32(1) + MakeBox(kind, head + box) && |d| < 0x1_0000_0000
    ensures |d| == 16 + |head| + |box| && U32(d, 8) == |d| - 8 && d[12..16] == kind && At(d, 16, head)
    ensures d[16 + |head|..] == box
  {
    hide U32, BE32;
    var n := Node(kind, head + box);
    assert At(d, 8, MakeBox(kind, head + box));
    BoxFields(d, 8, n);
    hide MakeBox;
    AtIs(d, 12, kind);
    AtSplit(d, 16, head, box);
    AtIs(d, 16 + |head|, box);
  }

  lemma {:induction false} EntryIsRead(data: bytes, stsd: View, c: Config, id: u32, timescale: u32, width: nat,
                                       height: nat, w: nat, h: nat, ts: nat)
    requires Supported(c) && |data| < 0x1_0000_0000
    requires Holds(data, stsd, Node(STSD, BE32(0) + BE32(1) + SampleEntry(c, w, h, ts)))
    ensures stsd.dataStart <= stsd.end <= |data|
    ensures ReadEntry(data, stsd, id, timescale, width, height)
            == Ok(Track(id, c.codec, timescale, width, height, if c.codec == AAC then CHANNELS else 0, ReadConfig(c)))
  {
    hide MakeBox, BE32, U32, U16, Views, First, AscFrom, EsdsBody, SampleEntry, EntryOf, At, Head, Record;
    var d := data[stsd.dataStart..stsd.end];
    var head, kind, record := Head(c, w, h, ts), ConfigKind(c.codec), Record(c);
    var box := MakeBox(kind, record);
    EntryIs(c, w, h, ts);
    StsdLayout(d, EntryKind(c.codec), head, box);
    if c.codec == AAC {
      HeadOfAac(c, w, h, ts);
      ChannelsAt(d, ts);
    }
    var off := stsd.dataStart + 16 + |head|;
    assert data[off..stsd.end] == d[16 + |head|..];
    ConfigBox(data, off, stsd.end, kind, record);
  }

  lemma {:induction false} HeadOfAac(c: Config, w: nat, h: nat, ts: nat)
    requires c.codec == AAC
    ensures Head(c, w, h, ts) == AudioHead(ts, CHANNELS)
  {
  }

  lemma {:induction false} ConfigBox(data: bytes, off: nat, end: nat, kind: FourCc, record: bytes)
    requires off <= end <= |data| < 0x1_0000_0000 && data[off..end] == MakeBox(kind, record)
    ensures Views(data, off, end) == Ok([View(kind, off, off + 8, end)])
    ensures First([View(kind, off, off + 8, end)], kind) == Some(View(kind, off, off + 8, end))
    ensures off + 8 <= end && data[off + 8..end] == record
  {
    var n := Node(kind, record);
    assert At(data, off, MakeBox(kind, record));
    BoxFields(data, off, n);
    assert |MakeBox(kind, record)| == 8 + |record|;
    Fmp4Mux.EncodedOne(n);
    hide MakeBox, At, Views;
    AtIs(data, off + 8, record);
    PartsFit([n]);
    EncodedIsRead(data, off, [n]);
    hide ViewsOf;
    OneView(n, off);
  }

  lemma {:induction false} OneView(n: Node, off: nat)
    ensures ViewsOf([n], off) == [View(n.kind, off, off + 8, off + 8 + |n.body|)]
  {
    assert [n][1..] == [];
    assert ViewsOf([], off + 8 + |n.body|) == [];
  }

  // ---- one track ----

  lemma {:induction false} TkhdIs(trackId: nat, video: bool, width: nat, height: nat)
    requires trackId < 0x1_0000_0000 && width < 0x1_0000 && height < 0x1_0000
    ensures var t := TkhdNode(trackId, video, width, height).body;
            && |t| == 84 && t[0] == 0 && U32(t, 12) == trackId && ReadOr0(t, 8) == width && ReadOr0(t, 4) == height
  {
    var t := TkhdNode(trackId, video, width, height).body;
    var a, b, c, d, e :=
      BE32(7) + BE32(0) + BE32(0), BE32(trackId), TkhdMiddle(video), BE32(width * 0x1_0000), BE32(height * 0x1_0000);
    TkhdBody(trackId, video, width, height);
    assert t[0] == BE32(7)[0];
    hide BE32, U32, TkhdNode, TkhdMiddle;
    FiveParts(t, a, b, c, d, e);
    U32At(t, 12, trackId);
    U32At(t, 76, width * 0x1_0000);
    U32At(t, 80, height * 0x1_0000);
  }

  lemma {:induction false} TkhdBody(trackId: nat, video: bool, width: nat, height: nat)
    ensures TkhdNode(trackId, video, width, height).body
            == (BE32(7) + BE32(0) + BE32(0)) + BE32(trackId) + TkhdMiddle(video)
               + BE32(width * 0x1_0000) + BE32(height * 0x1_0000)
    ensures TkhdNode(trackId, video, width, height).kind == TKHD
  {
    hide BE32, TkhdMiddle;
  }

  lemma {:induction false} FiveParts(t: bytes, a: bytes, b: bytes, c: bytes, d: bytes, e: bytes)
    requires t == a + b + c + d + e && |a| == 12 && |b| == 4 && |c| == 60 && |d| == |e| == 4
    ensures |t| == 84 && At(t, 12, b) && At(t, 76, d) && At(t, 80, e)
  {
  }

  lemma {:induction false} MdhdIs(timescale: nat)
    requires timescale < 0x1_0000_0000
    ensures var h := MdhdNode(timescale).body; |h| == 24 && h[0] == 0 && U32(h, 12) == timescale
    ensures MdhdNode(timescale).kind == MDHD
  {
    var h := MdhdNode(timescale).body;
    assert h[0] == BE32(0)[0];
    hide BE32, BE16, U32;
    assert At(h, 12, BE32(timescale));
    U32At(h, 12, timescale);
  }

  lemma {:induction false} TrackKinds()
    ensures TKHD != MDIA && MDHD != MINF && HDLR != MINF && VMHD != STBL && SMHD != STBL && DINF != STBL
    ensures FTYP != MOOV && MVHD != TRAK && MVEX != TRAK
  {
    assert TKHD[0] != MDIA[0] && MDHD[1] != MINF[1] && HDLR[0] != MINF[0];
    assert VMHD[0] != STBL[0] && SMHD[1] != STBL[1] && DINF[0] != STBL[0];
    assert FTYP[0] != MOOV[0] && MVHD[0] != TRAK[0] && MVEX[0] != TRAK[0];
  }

  /** The reader's view of a track: its number, its clock, its picture size and its configuration. */
  function TrackOf(id: u32, c: Config, width: nat, height: nat, timescale: u32): Track {
    Track(id, c.codec, if timescale == 0 then 1 else timescale, width, height,
          if c.codec == AAC then CHANNELS else 0, ReadConfig(c))
  }

  lemma {:induction false} StsdIsFound(data: bytes, mdia: View, video: bool, timescale: nat, entry: bytes)
    requires Holds(data, mdia, Node(MDIA, Encoded(MdiaChildren(video, timescale, entry)))) && |data| < 0x1_0000_0000
    ensures mdia.end <= |data|
    ensures var r := Descendant(data, mdia, [MINF, STBL, STSD]);
            && r.Ok? && r.value.Some? && Holds(data, r.value.value, Node(STSD, BE32(0) + BE32(1) + entry))
  {
    hide Encoded, ViewsOf, Child, Holds, BE32;
    TrackKinds();
    var ns := MdiaChildren(video, timescale, entry);
    ChildIs(data, mdia, MDIA, ns, 2);
    var minf := ViewsOf(ns, mdia.dataStart)[2];
    var ms := MinfChildren(video, entry);
    ChildIs(data, minf, MINF, ms, 2);
    var stbl := ViewsOf(ms, minf.dataStart)[2];
    var ss := StblChildren(entry);
    ChildIs(data, stbl, STBL, ss, 0);
    ThreeSteps(data, mdia, minf, stbl, ViewsOf(ss, stbl.dataStart)[0]);
  }

  lemma {:induction false} ThreeSteps(data: bytes, a: View, b: View, c: View, d: View)
    requires a.end <= |data| && b.end <= |data| && c.end <= |data| && d.end <= |data|
    requires Child(data, a, MINF) == Ok(Some(b)) && Child(data, b, STBL) == Ok(Some(c))
    requires Child(data, c, STSD) == Ok(Some(d))
    ensures Descendant(data, a, [MINF, STBL, STSD]) == Ok(Some(d))
  {
    hide Child;
    assert [MINF, STBL, STSD][1..] == [STBL, STSD] && [STBL, STSD][1..] == [STSD] && [STSD][1..] == [];
    assert Descendant(data, c, [STSD]) == Ok(Some(d));
  }

  lemma {:induction false} TrakIsRead(data: bytes, v: View, id: u32, c: Config, width: nat, height: nat, timescale: u32)
    requires Supported(c) && |data| < 0x1_0000_0000 && width < 0x1_0000 && height < 0x1_0000
    requires Holds(data, v, TrakNode(id, c, width, height, timescale))
    ensures v.end <= |data| && ReadTrak(data, v) == Ok(TrackOf(id, c, width, height, timescale))
  {
    hide Encoded, ViewsOf, Child, Descendant, Holds, BE32, TkhdNode, MdhdNode, HdlrNode, SampleEntry, ReadEntry,
         ReadConfig, ReadOr0, U32;
    TrackKinds();
    var video := c.codec == H264 || c.codec == H265;
    var entry := SampleEntry(c, width, height, timescale);
    var ns := TrakChildren(id, c, width, height, timescale);
    TkhdBody(id, video, width, height);
    ChildIs(data, v, TRAK, ns, 0);
    ChildIs(data, v, TRAK, ns, 1);
    var tkhd, mdia := ViewsOf(ns, v.dataStart)[0], ViewsOf(ns, v.dataStart)[1];
    TkhdIs(id, video, width, height);
    HoldsBody(data, tkhd, ns[0]);
    MdhdIs(timescale);
    var ms := MdiaChildren(video, timescale, entry);
    ChildIs(data, mdia, MDIA, ms, 0);
    HoldsBody(data, ViewsOf(ms, mdia.dataStart)[0], ms[0]);
    StsdIsFound(data, mdia, video, timescale, entry);
    var stsd := Descendant(data, mdia, [MINF, STBL, STSD]).value.value;
    EntryIsRead(data, stsd, c, id, if timescale == 0 then 1 else timescale, width, height, width, height, timescale);
  }

  lemma {:induction false} HoldsBody(data: bytes, v: View, n: Node)
    requires Holds(data, v, n)
    ensures v.dataStart <= v.end <= |data| && data[v.dataStart..v.end] == n.body
  {
  }

  // ---- the whole segment ----

  predicate AllSupported(m: Mux) {
    && (m.videoConfig.Some? ==> Supported(m.videoConfig.value))
    && (m.audioConfig.Some? ==> Supported(m.audioConfig.value))
  }

  function Expected(m: Mux): map<u32, Track> {
    var none: map<u32, Track> := map[];
    var one := if m.videoConfig.None? then none
               else none[1 := TrackOf(1, m.videoConfig.value, WIDTH, HEIGHT, m.timescale)];
    if m.audioConfig.None? then one else one[2 := TrackOf(2, m.audioConfig.value, 0, 0, SAMPLE_RATE)]
  }

  lemma {:induction false} TopIsRead(m: Mux)
    requires |InitSegment(m)| < 0x1_0000_0000
    ensures var data := InitSegment(m);
            var vs := ViewsOf(InitNodes(m), 0);
            && Views(data, 0, |data|) == Ok(vs) && First(vs, MOOV) == Some(vs[1])
            && Holds(data, vs[1], Node(MOOV, Encoded(MoovChildren(m))))
  {
    hide Encoded, ViewsOf, Views, MoovChildren, BE32;
    var ns := InitNodes(m);
    var data := InitSegment(m);
    var whole := View(FTYP, 0, 0, |data|);
    assert Holds(data, whole, Node(FTYP, Encoded(ns)));
    TrackKinds();
    ChildrenAre(data, whole, FTYP, ns);
    KindsOf(ns, 0);
    FirstOfKind(ViewsOf(ns, 0), ns, 1);
  }

  lemma {:induction false} NoneOfKind(vs: seq<View>, kind: FourCc)
    requires forall v :: v in vs ==> v.kind != kind
    ensures Filtered(vs, kind) == []
  {
    if vs != [] {
      NoneOfKind(vs[1..], kind);
    }
  }

  lemma {:induction false} FilteredAppend(a: seq<View>, b: seq<View>, kind: FourCc)
    ensures Filtered(a + b, kind) == Filtered(a, kind) + Filtered(b, kind)
  {
    if a == [] {
      assert a + b == b;
    } else {
      assert (a + b)[1..] == a[1..] + b;
      FilteredAppend(a[1..], b, kind);
      Assoc(if a[0].kind == kind then [a[0]] else [], Filtered(a[1..], kind), Filtered(b, kind));
    }
  }

  /** The tracks are the boxes between the first one and the `mvex` box. */
  lemma {:induction false} MiddleOnly(vs: seq<View>, k: nat, kind: FourCc)
    requires 1 <= k <= |vs| && vs[0].kind != kind
    requires forall i :: 1 <= i < k ==> vs[i].kind == kind
    requires forall i :: k <= i < |vs| ==> vs[i].kind != kind
    ensures Filtered(vs, kind) == vs[1..k]
  {
    var a, b, c := [vs[0]], vs[1..k], vs[k..];
    assert vs == a + b + c;
    FilteredAppend(a + b, c, kind);
    FilteredAppend(a, b, kind);
    NoneOfKind(a, kind);
    NoneOfKind(c, kind);
    Fmp4Stream.AllOfKind(b, kind);
  }

  lemma {:induction false} MoovKinds(m: Mux)
    ensures var ns := MoovChildren(m);
            var k := 1 + |Traks(m)|;
            && k <= |ns| && ns[0].kind == MVHD
            && (forall i :: 1 <= i < k ==> ns[i].kind == TRAK && ns[i] == Traks(m)[i - 1])
            && (forall i :: k <= i < |ns| ==> ns[i].kind == MVEX)
  {
    hide Encoded, BE32, BE16, Zeros, TrexNode;
  }

  lemma {:induction false} TraksAreFound(m: Mux, data: bytes, moov: View)
    requires |data| < 0x1_0000_0000 && Holds(data, moov, Node(MOOV, Encoded(MoovChildren(m))))
    ensures moov.end <= |data|
    ensures var r := Views(data, moov.dataStart, moov.end);
            && r.Ok?
            && var traks := Filtered(r.value, TRAK);
               |traks| == |Traks(m)| && forall i :: 0 <= i < |traks| ==> Holds(data, traks[i], Traks(m)[i])
  {
    hide Encoded, ViewsOf, Views, MoovChildren, Traks, Filtered;
    var ns := MoovChildren(m);
    ChildrenAre(data, moov, MOOV, ns);
    hide Holds;
    KindsOf(ns, moov.dataStart);
    MoovKinds(m);
    TrackKinds();
    MiddleOnly(ViewsOf(ns, moov.dataStart), 1 + |Traks(m)|, TRAK);
  }

  lemma {:induction false} OneTrak(data: bytes, vs: seq<View>, tracks: map<u32, Track>, t: Track)
    requires vs != [] && (forall v :: v in vs ==> v.end <= |data|) && ReadTrak(data, vs[0]) == Ok(t)
    ensures ReadTraks(data, vs, tracks) == ReadTraks(data, vs[1..], tracks[t.id := t])
  {
    hide ReadTrak;
  }

  lemma {:induction false} TraksAreRead(m: Mux, data: bytes, traks: seq<View>)
    requires AllSupported(m) && |data| < 0x1_0000_0000
    requires |traks| == |Traks(m)| && forall i :: 0 <= i < |traks| ==> Holds(data, traks[i], Traks(m)[i])
    ensures (forall v :: v in traks ==> v.end <= |data|) && ReadTraks(data, traks, map[]) == Ok(Expected(m))
  {
    hide ReadTrak, TrakNode, TrackOf;
    assert forall i :: 0 <= i < |traks| ==> Holds(data, traks[i], Traks(m)[i]) && traks[i].end <= |data|;
    hide Holds;
    var none: map<u32, Track> := map[];
    if m.videoConfig.Some? {
      var v := m.videoConfig.value;
      TrakIsRead(data, traks[0], 1, v, WIDTH, HEIGHT, m.timescale);
      OneTrak(data, traks, none, TrackOf(1, v, WIDTH, HEIGHT, m.timescale));
    }
    if m.audioConfig.Some? {
      var a := m.audioConfig.value;
      var k := if m.videoConfig.Some? then 1 else 0;
      var before := if m.videoConfig.None? then none
                    else none[1 := TrackOf(1, m.videoConfig.value, WIDTH, HEIGHT, m.timescale)];
      assert traks[k..][0] == traks[k] && traks[0..] == traks;
      TrakIsRead(data, traks[k], 2, a, 0, 0, SAMPLE_RATE);
      OneTrak(data, traks[k..], before, TrackOf(2, a, 0, 0, SAMPLE_RATE));
    }
    TrackIds(m);
    assert traks[|traks|..] == [];
  }

  lemma {:induction false} TrackIds(m: Mux)
    ensures m.videoConfig.Some? ==> TrackOf(1, m.videoConfig.value, WIDTH, HEIGHT, m.timescale).id == 1
    ensures m.audioConfig.Some? ==> TrackOf(2, m.audioConfig.value, 0, 0, SAMPLE_RATE).id == 2
  {
  }

  /** Every track of the writer is read back through the box tree: number, codec, clock, size, configuration. */
  lemma {:induction false} InitRoundTrip(m: Mux)
    requires AllSupported(m) && |InitSegment(m)| < 0x1_0000_0000
    requires m.videoConfig.Some? || m.audioConfig.Some?
    ensures FromInitSegment(InitSegment(m)) == Ok(Expected(m))
  {
    hide InitSegment, ViewsOf, Views, First, Filtered, ReadTraks, Expected, Holds, Encoded, MoovChildren, AllSupported;
    hide Traks;
    var data := InitSegment(m);
    TopIsRead(m);
    var moov := ViewsOf(InitNodes(m), 0)[1];
    TraksAreFound(m, data, moov);
    TraksAreRead(m, data, Filtered(Views(data, moov.dataStart, moov.end).value, TRAK));
    ExpectedIsSome(m);
  }

  lemma {:induction false} ExpectedIsSome(m: Mux)
    requires m.videoConfig.Some? || m.audioConfig.Some?
    ensures Expected(m) != map[]
  {
    hide TrackOf;
    assert 1 in Expected(m) || 2 in Expected(m);
  }

  lemma {:induction false} ExpectedIsValid(m: Mux)
    requires AllSupported(m)
    ensures ValidTracks(Expected(m))
    ensures (1 in Expected(m) <==> m.videoConfig.Some?) && (2 in Expected(m) <==> m.audioConfig.Some?)
    ensures m.videoConfig.Some? && m.videoConfig.value.codec != AAC ==> HasKeys(Expected(m), 1)
  {
    hide ReadConfig;
  }

  /** Every batch with samples of a track comes from a writer that knew the track's configuration. */
  predicate Configured(m: Mux, out: seq<Batch>) {
    forall b :: b in out ==> (b.video != [] ==> m.videoConfig.Some?) && (b.audio != [] ==> m.audioConfig.Some?)
  }

  /** From end to end: a reader that opens the initialisation segment the writer gives out after any number `at` of
    * operations gets back, of every track, the accepted samples of the whole run that are no longer pending,
    * in order, with the sync flags of a video track. */
  lemma {:induction false} StreamRoundTrip(timescale: u32, ops: seq<Op>, at: nat)
    requires at <= |ops|
    requires var m := RunAll(New(timescale), ops[..at]).mux;
             && AllSupported(m) && |InitSegment(m)| < 0x1_0000_0000 && (m.videoConfig.Some? || m.audioConfig.Some?)
             && Configured(m, RunAll(New(timescale), ops).out)
    requires Readable(RunAll(New(timescale), ops).out)
    ensures var m, r := RunAll(New(timescale), ops[..at]).mux, RunAll(New(timescale), ops);
            var tracks := FromInitSegment(InitSegment(m));
            && tracks.Ok? && ValidTracks(tracks.value)
            && (m.videoConfig.Some? && m.videoConfig.value.codec != AAC ==> HasKeys(tracks.value, 1))
            && Delivered(Read(tracks.value, r.out, 1), Accepted(New(timescale), ops, Video), r.mux.video,
                         HasKeys(tracks.value, 1))
            && Delivered(Read(tracks.value, r.out, 2), Accepted(New(timescale), ops, Audio), r.mux.audio,
                         HasKeys(tracks.value, 2))
            && Timed(tracks.value, r.out, 1) && Timed(tracks.value, r.out, 2)
  {
    hide RunAll, Readable, Accepted, Delivered, Read, Expected, FromInitSegment, InitSegment, HasKeys, AllSupported;
    hide ValidTracks, Timed;
    var m := RunAll(New(timescale), ops[..at]).mux;
    InitRoundTrip(m);
    ExpectedIsValid(m);
    RunRoundTrip(Expected(m), timescale, ops);
  }

  /** Decoder configurations survive: always for video records, and for AAC exactly when they have none or
    * two to five bytes. */
  lemma {:induction false} ConfigSurvives(c: Config)
    requires c.codec == AAC ==> !(2 < |c.data| && c.data[0] == 0xaf)
    requires c.codec == H264 || c.codec == H265 ==> c.data != [] && c.data[0] == 1
    requires Supported(c)
    ensures ReadConfig(c) == c.data <==> c.codec == AAC ==> |c.data| == 0 || 2 <= |c.data| <= 5
  {
    hide AscFrom, EsdsBody;
    if c.codec == AAC {
      EsdsRoundTrip(c.data);
    }
  }
}
