/** The initialisation segment: its writer (crates/mp4/src/fmp4.rs, `build_init_segment`) and its reader
  * (crates/mp4/src/fragmented_demuxer.rs, `from_init_segment`). */
module Fmp4Init {
  import opened Bytes
  import opened Frames
  import opened Boxes
  import opened Fmp4Demux
  import opened Fmp4Run
  import Fmp4Mux

  const FTYP: FourCc := [0x66, 0x74, 0x79, 0x70]
  const MOOV: FourCc := [0x6d, 0x6f, 0x6f, 0x76]
  const MVHD: FourCc := [0x6d, 0x76, 0x68, 0x64]
  const TRAK: FourCc := [0x74, 0x72, 0x61, 0x6b]
  const TKHD: FourCc := [0x74, 0x6b, 0x68, 0x64]
  const MDIA: FourCc := [0x6d, 0x64, 0x69, 0x61]
  const MDHD: FourCc := [0x6d, 0x64, 0x68, 0x64]
  const HDLR: FourCc := [0x68, 0x64, 0x6c, 0x72]
  const MINF: FourCc := [0x6d, 0x69, 0x6e, 0x66]
  const VMHD: FourCc := [0x76, 0x6d, 0x68, 0x64]
  const SMHD: FourCc := [0x73, 0x6d, 0x68, 0x64]
  const DINF: FourCc := [0x64, 0x69, 0x6e, 0x66]
  const DREF: FourCc := [0x64, 0x72, 0x65, 0x66]
  const STBL: FourCc := [0x73, 0x74, 0x62, 0x6c]
  const STSD: FourCc := [0x73, 0x74, 0x73, 0x64]
  const STTS: FourCc := [0x73, 0x74, 0x74, 0x73]
  const STSC: FourCc := [0x73, 0x74, 0x73, 0x63]
  const STSZ: FourCc := [0x73, 0x74, 0x73, 0x7a]
  const STCO: FourCc := [0x73, 0x74, 0x63, 0x6f]
  const MVEX: FourCc := [0x6d, 0x76, 0x65, 0x78]
  const TREX: FourCc := [0x74, 0x72, 0x65, 0x78]
  const AVC1: FourCc := [0x61, 0x76, 0x63, 0x31]
  const AVC3: FourCc := [0x61, 0x76, 0x63, 0x33]
  const HVC1: FourCc := [0x68, 0x76, 0x63, 0x31]
  const HEV1: FourCc := [0x68, 0x65, 0x76, 0x31]
  const MP4A: FourCc := [0x6d, 0x70, 0x34, 0x61]
  const HVCC: FourCc := [0x68, 0x76, 0x63, 0x43]
  const AVCC: FourCc := [0x61, 0x76, 0x63, 0x43]
  const ESDS: FourCc := [0x65, 0x73, 0x64, 0x73]
  const ISOM: FourCc := [0x69, 0x73, 0x6f, 0x6d]
  const VIDE: FourCc := [0x76, 0x69, 0x64, 0x65]
  const SOUN: FourCc := [0x73, 0x6f, 0x75, 0x6e]
  const URL: FourCc := [0x75, 0x72, 0x6c, 0x20]

  const WIDTH: nat := 640
  const HEIGHT: nat := 480
  const SAMPLE_RATE: nat := 44_100
  const CHANNELS: nat := 2
  const NAME: bytes := [0x7a, 0x6c, 0x6d, 0x65, 0x64, 0x69, 0x61, 0x6b, 0x69, 0x74, 0x2d, 0x72, 0x73, 0]

  function Zeros(n: nat): (r: bytes)
    ensures |r| == n
  {
    seq(n, i => 0)
  }

  // ---- the writer ----

  const MATRIX: bytes :=
    BE32(0x1_0000) + BE32(0) + BE32(0) + BE32(0) + BE32(0x1_0000) + BE32(0) + BE32(0) + BE32(0) + BE32(0x4000_0000)

  function MvhdNode(): Node {
    Node(MVHD, BE32(0) + BE32(0) + BE32(0) + BE32(1000) + BE32(0) + BE32(0x1_0000) + BE16(0x100) + BE16(0) + Zeros(8)
               + MATRIX + Zeros(24) + BE32(2))
  }

  /** Everything behind the track number and before the picture size. */
  function TkhdMiddle(video: bool): (r: bytes)
    ensures |r| == 60
  {
    BE32(0) + BE32(0) + Zeros(8) + BE16(0) + BE16(0) + BE16(if video then 0 else 0x100) + BE16(0) + MATRIX
  }

  function TkhdNode(trackId: nat, video: bool, width: nat, height: nat): Node {
    Node(TKHD, (BE32(7) + BE32(0) + BE32(0)) + BE32(trackId) + TkhdMiddle(video)
               + BE32(width * 0x1_0000) + BE32(height * 0x1_0000))
  }

  function MdhdNode(timescale: nat): Node {
    Node(MDHD, (BE32(0) + BE32(0) + BE32(0)) + BE32(timescale) + (BE32(0) + BE16(0x55c4) + BE16(0)))
  }

  function HdlrNode(video: bool): Node {
    Node(HDLR, BE32(0) + BE32(0) + (if video then VIDE else SOUN) + Zeros(12) + NAME)
  }

  function MediaHeaderNode(video: bool): Node {
    if video then Node(VMHD, BE32(1) + BE16(0) + Zeros(6)) else Node(SMHD, BE32(0) + BE16(0) + BE16(0))
  }

  function DinfNode(): Node {
    Node(DINF, MakeBox(DREF, BE32(0) + BE32(1) + MakeBox(URL, BE32(1))))
  }

  /** A configuration record that still carries its FLV tag header loses it. */
  function VideoRecord(config: bytes): bytes {
    if config != [] && config[0] == 1 then config else if 5 <= |config| then config[5..] else config
  }

  function AudioRecord(config: bytes): bytes {
    if 2 < |config| && config[0] == 0xaf then config[2..] else config
  }

  /** The fixed part of a visual sample entry. */
  function VisualHead(width: nat, height: nat): (r: bytes)
    ensures |r| == 78
  {
    Zeros(6) + BE16(1) + BE16(0) + BE16(0) + Zeros(12) + BE16(width) + BE16(height) + BE32(0x48_0000) + BE32(0x48_0000)
    + BE32(0) + BE16(1) + Zeros(32) + BE16(24) + [0xff, 0xff]
  }

  function AudioHead(sampleRate: nat, channels: nat): (r: bytes)
    ensures |r| == 28
  {
    (Zeros(6) + BE16(1) + Zeros(8)) + BE16(channels) + (BE16(16) + BE16(0) + BE16(0) + BE32(sampleRate * 0x1_0000))
  }

  /** The descriptors of `esds` up to the length of the decoder-specific information. */
  const ESDS_START: bytes := [0, 0, 0, 0, 0x03, 0x19]
  const ESDS_MIDDLE: bytes := [0, 1, 0, 0x04, 0x11, 0x40, 0x15, 0, 0, 0, 0, 1, 0xf4, 0, 0, 1, 0xf4, 0]

  function EsdsBody(asc: bytes): (r: bytes)
    ensures |r| == 29 + |asc|
  {
    ESDS_START + ESDS_MIDDLE + [0x05, |asc| % 0x100] + asc + [0x06, 0x01, 0x02]
  }

  /** The sample entry of a codec; others have none. */
  function SampleEntry(c: Config, width: nat, height: nat, timescale: nat): bytes {
    match c.codec
    case H264 => MakeBox(AVC1, VisualHead(width, height) + MakeBox(AVCC, VideoRecord(c.data)))
    case H265 => MakeBox(HVC1, VisualHead(width, height) + MakeBox(HVCC, VideoRecord(c.data)))
    case AAC => MakeBox(MP4A, AudioHead(timescale, CHANNELS) + MakeBox(ESDS, EsdsBody(AudioRecord(c.data))))
    case _ => []
  }

  function StblChildren(entry: bytes): seq<Node> {
    [Node(STSD, BE32(0) + BE32(1) + entry), Node(STTS, Zeros(8)), Node(STSC, Zeros(8)), Node(STSZ, Zeros(12)),
     Node(STCO, Zeros(8))]
  }

  function MinfChildren(video: bool, entry: bytes): seq<Node> {
    [MediaHeaderNode(video), DinfNode(), Node(STBL, Encoded(StblChildren(entry)))]
  }

  function MdiaChildren(video: bool, timescale: nat, entry: bytes): seq<Node> {
    [MdhdNode(timescale), HdlrNode(video), Node(MINF, Encoded(MinfChildren(video, entry)))]
  }

  function TrakChildren(trackId: nat, c: Config, width: nat, height: nat, timescale: nat): seq<Node> {
    var video := c.codec == H264 || c.codec == H265;
    [TkhdNode(trackId, video, width, height),
     Node(MDIA, Encoded(MdiaChildren(video, timescale, SampleEntry(c, width, height, timescale))))]
  }

  function TrakNode(trackId: nat, c: Config, width: nat, height: nat, timescale: nat): Node {
    Node(TRAK, Encoded(TrakChildren(trackId, c, width, height, timescale)))
  }

  function TrexNode(trackId: nat): Node {
    Node(TREX, BE32(0) + BE32(trackId) + BE32(1) + BE32(0) + BE32(0) + BE32(0))
  }

  function Traks(m: Mux): seq<Node> {
    (if m.videoConfig.Some? then [TrakNode(1, m.videoConfig.value, WIDTH, HEIGHT, m.timescale)] else [])
    + if m.audioConfig.Some? then [TrakNode(2, m.audioConfig.value, 0, 0, SAMPLE_RATE)] else []
  }

  function Mvex(m: Mux): seq<Node> {
    var trexes := (if m.videoConfig.Some? then [TrexNode(1)] else [])
                  + if m.audioConfig.Some? then [TrexNode(2)] else [];
    if trexes == [] then [] else [Node(MVEX, Encoded(trexes))]
  }

  function MoovChildren(m: Mux): seq<Node> {
    [MvhdNode()] + Traks(m) + Mvex(m)
  }

  function FtypNode(m: Mux): Node {
    var major := if m.videoConfig.Some? && m.videoConfig.value.codec == H265 then Fmp4Mux.ISO6 else ISOM;
    Node(FTYP, major + BE32(0x200) + (Fmp4Mux.ISO6 + [0x6d, 0x70, 0x34, 0x31] + Fmp4Mux.CMFC))
  }

  function InitNodes(m: Mux): seq<Node> {
    [FtypNode(m), Node(MOOV, Encoded(MoovChildren(m)))]
  }

  function InitSegment(m: Mux): bytes {
    Encoded(InitNodes(m))
  }

  // ---- the reader ----

  /** A descriptor length and the offset behind it: seven bits a byte, at most four bytes. */
  function LengthFrom(d: bytes, off: nat, length: nat, left: nat): (r: Option<Field>)
    ensures r.Some? ==> off < r.value.next <= |d|
    decreases left
  {
    if left == 0 || off >= |d| then None
    else
      var n := 0x80 * length + d[off] as int % 0x80;
      if d[off] < 0x80 then Some(Field(n, off + 1)) else LengthFrom(d, off + 1, n, left - 1)
  }

  method DescriptorLength(d: bytes, start: nat) returns (r: Option<Field>)
    ensures r == LengthFrom(d, start, 0, 4)
  {
    var length: nat, offset: nat, i: nat := 0, start, 0;
    while i < 4
      invariant i <= 4
      invariant LengthFrom(d, start, 0, 4) == LengthFrom(d, offset, length, 4 - i)
    {
      if offset >= |d| {
        return None;
      }
      var byte := d[offset];
      offset := offset + 1;
      length := 0x80 * length + byte as int % 0x80;
      if byte < 0x80 {
        return Some(Field(length, offset));
      }
      i := i + 1;
    }
    return None;
  }

  /** The first index of `x` in `d[off..end]`, or `end`. */
  function Position(d: bytes, off: nat, end: nat, x: byte): (r: nat)
    requires off <= end <= |d|
    ensures off <= r <= end && (r < end ==> d[r] == x)
    decreases end - off
  {
    if off == end || d[off] == x then off else Position(d, off + 1, end, x)
  }

  function AscFrom(d: bytes, off: nat): (r: bytes)
    ensures r == [] || off + 2 + |r| <= |d|
    decreases |d| - off
  {
    if off >= |d| then []
    else
      match LengthFrom(d, off + 1, 0, 4)
      case None => []
      case Some(len) =>
        var end := len.next + len.value;
        if end > |d| then []
        else if d[off] == 5 then d[len.next..end]
        else
          var p := Position(d, len.next, end, 5);
          var inner := if p < end then LengthFrom(d, p + 1, 0, 4) else None;
          if inner.Some? && inner.value.next + inner.value.value <= end
          then d[inner.value.next..inner.value.next + inner.value.value]
          else AscFrom(d, end)
  }

  method ExtractAsc(d: bytes) returns (r: bytes)
    ensures r == AscFrom(d, Min(|d|, 4))
  {
    hide LengthFrom, Position;
    var offset: nat := Min(|d|, 4);
    while offset < |d|
      invariant AscFrom(d, Min(|d|, 4)) == AscFrom(d, offset)
      decreases |d| - offset
    {
      var tag := d[offset];
      var len := DescriptorLength(d, offset + 1);
      if len.None? {
        return [];
      }
      var end := len.value.next + len.value.value;
      if end > |d| {
        return [];
      }
      if tag == 5 {
        return d[len.value.next..end];
      }
      var p := Position(d, len.value.next, end, 5);
      if p < end {
        var inner := DescriptorLength(d, p + 1);
        if inner.Some? && inner.value.next + inner.value.value <= end {
          return d[inner.value.next..inner.value.next + inner.value.value];
        }
      }
      offset := end;
    }
    return [];
  }

  function ReadOr0(d: bytes, back: nat): nat {
    if back <= |d| && |d| - back + 4 <= |d| then U32(d, |d| - back) / 0x1_0000 else 0
  }

  datatype Entry = Entry(codec: CodecId, headLen: nat, configKind: FourCc)

  function EntryOf(kind: FourCc): Result<Entry> {
    if kind == AVC1 || kind == AVC3 then Ok(Entry(H264, 86, AVCC))
    else if kind == HVC1 || kind == HEV1 then Ok(Entry(H265, 86, HVCC))
    else if kind == MP4A then Ok(Entry(AAC, 36, ESDS))
    else Err(Unsupported)
  }

  /** The sample entry of an `stsd` box. */
  function ReadEntry(data: bytes, stsd: View, id: u32, timescale: u32, width: nat, height: nat): Result<Track>
    requires stsd.dataStart <= stsd.end <= |data|
  {
    var d := data[stsd.dataStart..stsd.end];
    if |d| < 16 then Err(Codec)
    else
      var size := U32(d, 8);
      if size < 8 || 8 + size > |d| then Err(Codec)
      else
        var e :- EntryOf(d[12..16]);
        var channels := if e.codec != AAC then 0 else if 34 <= |d| then U16(d, 32) else 2;
        var vs :- Views(data, stsd.dataStart + 8 + e.headLen, stsd.dataStart + 8 + size);
        var box := First(vs, e.configKind);
        if box.None? then Err(Codec)
        else
          var raw := data[box.value.dataStart..box.value.end];
          Ok(Track(id, e.codec, timescale, width, height, channels,
                   if e.codec == AAC then AscFrom(raw, Min(|raw|, 4)) else raw))
  }

  function ReadTrak(data: bytes, trak: View): (r: Result<Track>)
    requires trak.end <= |data|
  {
    var tkhd :- Child(data, trak, TKHD);
    if tkhd.None? then Err(Codec)
    else
      var t := data[tkhd.value.dataStart..tkhd.value.end];
      var id :- Read32(t, if t != [] && t[0] == 1 then 20 else 12);
      var mdia :- Child(data, trak, MDIA);
      if mdia.None? then Err(Codec)
      else
        var mdhd :- Child(data, mdia.value, MDHD);
        if mdhd.None? then Err(Codec)
        else
          var h := data[mdhd.value.dataStart..mdhd.value.end];
          var scale :- Read32(h, if h != [] && h[0] == 1 then 20 else 12);
          var stsd :- Descendant(data, mdia.value, [MINF, STBL, STSD]);
          if stsd.None? then Err(Codec)
          else ReadEntry(data, stsd.value, id, if scale == 0 then 1 else scale, ReadOr0(t, 8), ReadOr0(t, 4))
  }

  function ReadTraks(data: bytes, vs: seq<View>, tracks: map<u32, Track>): Result<map<u32, Track>>
    requires forall v :: v in vs ==> v.end <= |data|
    decreases |vs|
  {
    if vs == [] then Ok(tracks)
    else
      var t :- ReadTrak(data, vs[0]);
      ReadTraks(data, vs[1..], tracks[t.id := t])
  }

  function FromInitSegment(data: bytes): Result<map<u32, Track>> {
    var top :- Views(data, 0, |data|);
    var moov := First(top, MOOV);
    if moov.None? then Err(Codec)
    else
      var vs :- Views(data, moov.value.dataStart, moov.value.end);
      var tracks :- ReadTraks(data, Filtered(vs, TRAK), map[]);
      if tracks == map[] then Err(Codec) else Ok(tracks)
  }

  method Open(data: bytes) returns (r: Result<map<u32, Track>>)
    ensures r == FromInitSegment(data)
  {
    hide Views, First, Filtered, ReadTrak, Within;
    var top :- Scan(data, 0, |data|);
    TopInside(data);
    var moov := First(top, MOOV);
    if moov.None? {
      return Err(Codec);
    }
    var vs :- Scan(data, moov.value.dataStart, moov.value.end);
    ViewsInside(data, moov.value);
    var traks := Filtered(vs, TRAK);
    var tracks: map<u32, Track> := map[];
    var k := 0;
    assert traks[0..] == traks;
    while k < |traks|
      invariant k <= |traks|
      invariant ReadTraks(data, traks[k..], tracks) == ReadTraks(data, traks, map[])
    {
      assert traks[k..][1..] == traks[k + 1..];
      var t :- ReadTrak(data, traks[k]);
      tracks := tracks[t.id := t];
      k := k + 1;
    }
    if tracks == map[] {
      return Err(Codec);
    }
    return Ok(tracks);
  }
}
