/** The MPEG-2 program stream muxer of crates/core/src/ps.rs. */
module PsMux {
  import opened Bytes
  import opened Bits
  import opened Crc
  import opened Frames
  import opened Payload

  const VIDEO_STREAM_ID: byte := 0xe0
  const AUDIO_STREAM_ID: byte := 0xc0
  const MAX_PES_PAYLOAD: nat := 65_512
  const PTS_MODULUS: nat := 0x2_0000_0000

  datatype PsTrack = PsTrack(streamType: byte, streamId: byte)

  datatype AacConfig = AacConfig(profile: byte, rateIndex: byte, channels: byte)

  /** One entity of the program stream, before it is written as bytes. */
  datatype Unit =
    | PackHeader(scr: nat)
    | SystemHeader(tracks: seq<PsTrack>)
    | StreamMap(tracks: seq<PsTrack>)
    | Pes(track: PsTrack, pts: nat, dts: nat, payload: bytes)

  function TrackOf(codec: CodecId): Result<PsTrack> {
    match codec
    case H264 => Ok(PsTrack(0x1b, VIDEO_STREAM_ID))
    case H265 => Ok(PsTrack(0x24, VIDEO_STREAM_ID))
    case AAC => Ok(PsTrack(0x0f, AUDIO_STREAM_ID))
    case G711A => Ok(PsTrack(0x90, AUDIO_STREAM_ID))
    case G711U => Ok(PsTrack(0x91, AUDIO_STREAM_ID))
    case MP2A => Ok(PsTrack(0x04, AUDIO_STREAM_ID))
    case Mp3 => Ok(PsTrack(0x03, AUDIO_STREAM_ID))
    case _ => Err(Unsupported)
  }

  /** `milliseconds.wrapping_mul(90) & PTS_MASK`. */
  function Timestamp90k(ms: u64): (r: nat)
    ensures r == ms * 90 % PTS_MODULUS
  {
    WrapKeepsLowBits(ms * 90);
    ms * 90 % 0x1_0000_0000_0000_0000 % PTS_MODULUS
  }

  lemma {:induction false} WrapKeepsLowBits(n: nat)
    ensures n % 0x1_0000_0000_0000_0000 % PTS_MODULUS == n % PTS_MODULUS
  {
    var q, r := n / 0x1_0000_0000_0000_0000, n % 0x1_0000_0000_0000_0000;
    AddMultiple(0x8000_0000 * q, r);
  }

  lemma {:induction false} AddMultiple(a: nat, r: nat)
    ensures (PTS_MODULUS * a + r) % PTS_MODULUS == r % PTS_MODULUS
  {
  }

  // ---- pack header and system header, written bit by bit ----

  function PackBits(scr: nat): (r: bits)
    ensures |r| == 80
  {
    [] + BitsOf(1, 2) + BitsOf(scr / 0x4000_0000, 3) + BitsOf(1, 1) + BitsOf(scr / 0x8000, 15) + BitsOf(1, 1)
    + BitsOf(scr, 15) + BitsOf(1, 1) + BitsOf(0, 9) + BitsOf(1, 1) + BitsOf(50_000, 22) + BitsOf(1, 1) + BitsOf(1, 1)
    + BitsOf(0x1f, 5) + BitsOf(0, 3)
  }

  function PackHeaderBytes(scr: nat): (r: bytes)
    ensures |r| == 14
  {
    [0, 0, 1, 0xba] + Pack(PackBits(scr))
  }

  method WritePackHeader(scr: nat) returns (r: bytes)
    ensures r == PackHeaderBytes(scr)
  {
    hide *;
    var w := new BitWriter();
    w.Push(1, 2);
    w.Push(scr / 0x4000_0000, 3);
    w.Push(1, 1);
    w.Push(scr / 0x8000, 15);
    w.Push(1, 1);
    w.Push(scr, 15);
    w.Push(1, 1);
    w.Push(0, 9);
    w.Push(1, 1);
    w.Push(50_000, 22);
    w.Push(1, 1);
    w.Push(1, 1);
    w.Push(0x1f, 5);
    w.Push(0, 3);
    PackBitsIs(scr);
    PackHeaderIs(scr);
    var body := w.Finish();
    return [0, 0, 1, 0xba] + body;
  }

  lemma {:induction false} PackBitsIs(scr: nat)
    ensures PackBits(scr)
            == [] + BitsOf(1, 2) + BitsOf(scr / 0x4000_0000, 3) + BitsOf(1, 1) + BitsOf(scr / 0x8000, 15) + BitsOf(1, 1)
               + BitsOf(scr, 15) + BitsOf(1, 1) + BitsOf(0, 9) + BitsOf(1, 1) + BitsOf(50_000, 22) + BitsOf(1, 1)
               + BitsOf(1, 1) + BitsOf(0x1f, 5) + BitsOf(0, 3)
    ensures Padded(PackBits(scr)) == PackBits(scr)
  {
    hide BitsOf;
  }

  /** The clock reference a reader finds in a pack header. */
  function ScrOf(header: bytes): nat
    requires |header| == 14
  {
    var u := Unpack(header[4..]);
    Value(u[2..5]) * 0x4000_0000 + Value(u[6..21]) * 0x8000 + Value(u[22..37])
  }

  /** The clock reference is recovered, and the stuffing length the reader skips is zero. */
  lemma {:induction false} PackHeaderCarriesScr(scr: nat)
    requires scr < PTS_MODULUS
    ensures ScrOf(PackHeaderBytes(scr)) == scr
    ensures PackHeaderBytes(scr)[13] % 8 == 0
  {
    hide *;
    var b := PackBits(scr);
    UnpackPack(b);
    PackHeaderIs(scr);
    ScrIs(PackHeaderBytes(scr), b);
    ScrFields(scr);
    ScrSum(scr);
    NoStuffing(b);
  }

  lemma {:induction false} PackHeaderIs(scr: nat)
    ensures PackHeaderBytes(scr) == [0, 0, 1, 0xba] + Pack(PackBits(scr))
    ensures PackHeaderBytes(scr)[4..] == Pack(PackBits(scr))
  {
    hide PackBits, Pack;
  }

  lemma {:induction false} ScrIs(header: bytes, b: bits)
    requires |header| == 14 && |b| == 80 && Unpack(header[4..]) == b
    ensures ScrOf(header) == Value(b[2..5]) * 0x4000_0000 + Value(b[6..21]) * 0x8000 + Value(b[22..37])
  {
    hide Value, Unpack;
  }

  /** The three fields add up to the clock reference. */
  lemma {:induction false} ScrSum(scr: nat)
    requires scr < PTS_MODULUS
    ensures Value(BitsOf(scr / 0x4000_0000, 3)) * 0x4000_0000 + Value(BitsOf(scr / 0x8000, 15)) * 0x8000
            + Value(BitsOf(scr, 15)) == scr
  {
    hide BitsOf, Value, Pow2;
    Pow2Of15();
    ValueOfBits(scr / 0x4000_0000, 3);
    var q := LowBits(scr, 15);
    var r := LowBits(scr / 0x8000, 15);
    LowIsRest(scr, q, Value(BitsOf(scr, 15)));
    LowIsRest(scr / 0x8000, r, Value(BitsOf(scr / 0x8000, 15)));
    Halves(scr);
  }

  lemma {:induction false} LowIsRest(n: nat, q: nat, low: nat)
    requires n == 0x8000 * q + low && low < 0x8000
    ensures low == n % 0x8000
  {
    DivMod(0x8000, q, low);
  }

  lemma {:induction false} Halves(scr: nat)
    ensures scr / 0x4000_0000 * 0x4000_0000 + scr / 0x8000 % 0x8000 * 0x8000 + scr % 0x8000 == scr
  {
    var m := scr / 0x8000;
    DivMod(0x4000_0000, m / 0x8000, m % 0x8000 * 0x8000 + scr % 0x8000);
  }

  lemma {:induction false} NoStuffing(b: bits)
    requires |b| == 80 && b[72..80] == BitsOf(0x1f, 5) + BitsOf(0, 3)
    ensures Pack(b)[9] == 0xf8
  {
    hide BitsOf, Value, Pack, Pow2, Zeros;
    PackAt(b, 9);
    BitsOfShifted(0x1f, 5, 3);
    BitsOfZero(3);
    Pow2Of8();
    ValueOfBits(0xf8, 8);
    assert Shl(0x1f, 3) == 0xf8;
  }

  lemma {:induction false} ScrFields(scr: nat)
    ensures var b := PackBits(scr);
            && b[2..5] == BitsOf(scr / 0x4000_0000, 3)
            && b[6..21] == BitsOf(scr / 0x8000, 15)
            && b[22..37] == BitsOf(scr, 15)
            && b[72..80] == BitsOf(0x1f, 5) + BitsOf(0, 3)
  {
    hide BitsOf;
  }

  lemma {:induction false} LowBits(n: nat, k: nat) returns (q: nat)
    ensures n == Pow2(k) * q + Value(BitsOf(n, k))
    decreases k
  {
    hide BitsOf, Value;
    if k == 0 {
      q := n;
      NoBits(n);
    } else {
      q := LowBits(n / 2, k - 1);
      ValueStep(n, k);
      Doubled(k, q);
      hide Pow2;
    }
  }

  lemma {:induction false} NoBits(n: nat)
    ensures Pow2(0) * n == n && Value(BitsOf(n, 0)) == 0
  {
  }

  lemma {:induction false} Doubled(k: nat, q: nat)
    requires 0 < k
    ensures Pow2(k) * q == 2 * (Pow2(k - 1) * q)
  {
    var p := Pow2(k - 1);
    assert 2 * p * q == 2 * (p * q);
  }

  lemma {:induction false} Pow2Of15()
    ensures Pow2(15) == 0x8000 && Pow2(3) == 8
  {
    Pow2Of8();
    assert Pow2(10) == 0x400;
    assert Pow2(12) == 0x1000;
    assert Pow2(14) == 0x4000;
  }

  lemma {:induction false} BitsOfZero(k: nat)
    ensures BitsOf(0, k) == Zeros(k)
  {
    BitsOfShifted(0, 0, k);
    ShlZero(k);
  }

  lemma {:induction false} ShlZero(k: nat)
    ensures Shl(0, k) == 0
  {
    if k > 0 {
      ShlZero(k - 1);
    }
  }

  predicate IsVideoId(id: byte) {
    id / 0x10 == 0xe
  }

  function CountVideo(tracks: seq<PsTrack>, video: bool): nat {
    if tracks == [] then 0
    else
      (if (if video then IsVideoId(tracks[0].streamId) else tracks[0].streamId / 0x20 == 6) then 1 else 0)
      + CountVideo(tracks[1..], video)
  }

  function TrackBits(t: PsTrack): (r: bits)
    ensures |r| == 24
  {
    BitsOf(t.streamId, 8) + BitsOf(3, 2) + BitsOf(if IsVideoId(t.streamId) then 1 else 0, 1)
    + BitsOf(if IsVideoId(t.streamId) then 512 else 32, 13)
  }

  function TracksBits(tracks: seq<PsTrack>): (r: bits)
    ensures |r| == 24 * |tracks|
  {
    if tracks == [] then [] else TracksBits(tracks[..|tracks| - 1]) + TrackBits(tracks[|tracks| - 1])
  }

  function FixedBits(tracks: seq<PsTrack>): (r: bits)
    ensures |r| == 48
  {
    [] + BitsOf(1, 1) + BitsOf(50_000, 22) + BitsOf(1, 1) + BitsOf(Min(CountVideo(tracks, false), 0x3f), 6)
    + BitsOf(0, 1) + BitsOf(0, 1) + BitsOf(0, 1) + BitsOf(0, 1) + BitsOf(1, 1)
    + BitsOf(Min(CountVideo(tracks, true), 0x1f), 5) + BitsOf(0, 1) + BitsOf(0x7f, 7)
  }

  function SystemBody(tracks: seq<PsTrack>): (r: bytes)
    ensures |r| == 6 + 3 * |tracks|
  {
    hide FixedBits, TracksBits;
    assert |FixedBits(tracks) + TracksBits(tracks)| == 8 * (6 + 3 * |tracks|);
    Pack(FixedBits(tracks) + TracksBits(tracks))
  }

  function SystemHeaderBytes(tracks: seq<PsTrack>): (r: bytes)
    ensures |r| == 12 + 3 * |tracks|
  {
    [0, 0, 1, 0xbb] + BE16(6 + 3 * |tracks|) + SystemBody(tracks)
  }

  method WriteFixed(tracks: seq<PsTrack>) returns (w: BitWriter)
    ensures fresh(w) && w.Valid() && w.Written() == FixedBits(tracks)
  {
    hide BitsOf, CountVideo;
    w := new BitWriter();
    w.Push(1, 1);
    w.Push(50_000, 22);
    w.Push(1, 1);
    w.Push(Min(CountVideo(tracks, false), 0x3f), 6);
    w.Push(0, 1);
    w.Push(0, 1);
    w.Push(0, 1);
    w.Push(0, 1);
    w.Push(1, 1);
    w.Push(Min(CountVideo(tracks, true), 0x1f), 5);
    w.Push(0, 1);
    w.Push(0x7f, 7);
  }

  method WriteSystemHeader(tracks: seq<PsTrack>) returns (r: bytes)
    ensures r == SystemHeaderBytes(tracks)
  {
    hide FixedBits, Pack, TracksBits, TrackBits, BE16, Unpack, BitsOf;
    var w := WriteFixed(tracks);
    TracksBitsStep(tracks, 0);
    var i := 0;
    while i < |tracks|
      invariant i <= |tracks| && w.Valid()
      invariant w.Written() == FixedBits(tracks) + TracksBits(tracks[..i])
    {
      TracksBitsStep(tracks, i);
      Assoc(FixedBits(tracks), TracksBits(tracks[..i]), TrackBits(tracks[i]));
      PushTrack(w, tracks[i]);
      i := i + 1;
    }
    assert tracks[..i] == tracks;
    assert |w.Written()| == 8 * (6 + 3 * |tracks|);
    var body := w.Finish();
    return [0, 0, 1, 0xbb] + BE16(|body|) + body;
  }

  method PushTrack(w: BitWriter, t: PsTrack)
    requires w.Valid()
    modifies w
    ensures w.Valid() && w.Written() == old(w.Written()) + TrackBits(t)
  {
    hide BitsOf;
    w.Push(t.streamId, 8);
    w.Push(3, 2);
    w.Push(if IsVideoId(t.streamId) then 1 else 0, 1);
    w.Push(if IsVideoId(t.streamId) then 512 else 32, 13);
  }

  lemma {:induction false} TracksBitsStep(tracks: seq<PsTrack>, i: nat)
    requires i <= |tracks|
    ensures TracksBits([]) == [] && tracks[..0] == []
    ensures i < |tracks| ==> TracksBits(tracks[..i + 1]) == TracksBits(tracks[..i]) + TrackBits(tracks[i])
  {
    assert i < |tracks| ==> tracks[..i + 1][..i] == tracks[..i];
  }

  // ---- program stream map ----

  function MapEntryBytes(t: PsTrack): (r: bytes)
    ensures |r| == 4
  {
    [t.streamType, t.streamId, 0, 0]
  }

  function MapEntriesBytes(tracks: seq<PsTrack>): (r: bytes)
    ensures |r| == 4 * |tracks|
  {
    if tracks == [] then [] else MapEntryBytes(tracks[0]) + MapEntriesBytes(tracks[1..])
  }

  /** Everything the checksum covers. */
  function MapBody(tracks: seq<PsTrack>): (r: bytes)
    ensures |r| == 12 + 4 * |tracks|
  {
    [0, 0, 1, 0xbc] + BE16(10 + 4 * |tracks|) + [0xe0, 0xff] + BE16(0) + BE16(4 * |tracks|) + MapEntriesBytes(tracks)
  }

  function MapBytes(tracks: seq<PsTrack>): (r: bytes)
    ensures |r| == 16 + 4 * |tracks|
  {
    MapBody(tracks) + Crc32(MapBody(tracks))
  }

  lemma {:induction false} MapEntriesAppend(a: seq<PsTrack>, t: PsTrack)
    ensures MapEntriesBytes(a + [t]) == MapEntriesBytes(a) + MapEntryBytes(t)
  {
    if a == [] {
      assert a + [t] == [t] && [t][1..] == [];
    } else {
      assert (a + [t])[1..] == a[1..] + [t];
      MapEntriesAppend(a[1..], t);
    }
  }

  method WriteMapEntries(tracks: seq<PsTrack>) returns (entries: bytes)
    ensures entries == MapEntriesBytes(tracks)
  {
    assert MapEntriesBytes([]) == [];
    hide MapEntriesBytes, MapEntryBytes;
    entries := [];
    var i := 0;
    while i < |tracks|
      invariant i <= |tracks|
      invariant entries == MapEntriesBytes(tracks[..i])
    {
      MapEntriesAppend(tracks[..i], tracks[i]);
      assert tracks[..i + 1] == tracks[..i] + [tracks[i]];
      entries := entries + MapEntryBytes(tracks[i]);
      i := i + 1;
    }
    assert tracks[..i] == tracks;
  }

  method WriteStreamMap(tracks: seq<PsTrack>) returns (r: bytes)
    ensures r == MapBytes(tracks)
  {
    hide BE16, MapEntriesBytes, Pack, Feed;
    var entries := WriteMapEntries(tracks);
    r := [0, 0, 1, 0xbc] + BE16(10 + |entries|) + [0xe0, 0xff] + BE16(0) + BE16(|entries|) + entries;
    var crc := Mpeg2Crc32(r);
    r := r + Pack(crc);
  }

  // ---- PES packets ----

  function EncodeTimestamp(prefix: nat, value: nat): (r: bytes)
    requires prefix < 0x10
    ensures |r| == 5
  {
    var v := value % PTS_MODULUS;
    [prefix * 0x10 + v / 0x4000_0000 * 2 + 1, v / 0x40_0000 % 0x100, v / 0x8000 % 0x80 * 2 + 1, v / 0x80 % 0x100,
     v % 0x80 * 2 + 1]
  }

  function PesHeader(streamId: byte, pts: nat, dts: nat, payloadLen: nat): (r: bytes)
    ensures |r| == if pts != dts then 19 else 14
  {
    var n := if pts != dts then 10 else 5;
    [0, 0, 1, streamId] + BE16(3 + n + payloadLen) + [0x80, if pts != dts then 0xc0 else 0x80, n]
    + if pts != dts then EncodeTimestamp(3, pts) + EncodeTimestamp(1, dts) else EncodeTimestamp(2, pts)
  }

  function PesBytes(streamId: byte, pts: nat, dts: nat, payload: bytes): (r: bytes) {
    PesHeader(streamId, pts, dts, |payload|) + payload
  }

  function Encode(u: Unit): bytes {
    match u
    case PackHeader(scr) => PackHeaderBytes(scr)
    case SystemHeader(tracks) => SystemHeaderBytes(tracks)
    case StreamMap(tracks) => MapBytes(tracks)
    case Pes(track, pts, dts, payload) => PesBytes(track.streamId, pts, dts, payload)
  }

  function EncodeAll(us: seq<Unit>): bytes {
    if us == [] then [] else Encode(us[0]) + EncodeAll(us[1..])
  }

  lemma {:induction false} EncodeAllAppend(a: seq<Unit>, b: seq<Unit>)
    ensures EncodeAll(a + b) == EncodeAll(a) + EncodeAll(b)
  {
    hide Encode;
    if a == [] {
      assert a + b == b;
    } else {
      assert (a + b)[1..] == a[1..] + b;
      EncodeAllAppend(a[1..], b);
    }
  }

  // ---- the muxer ----

  function ParseAacConfig(d: bytes): (r: Option<AacConfig>)
    ensures ValidAac(r)
  {
    if |d| < 2 then None
    else
      var objectType := d[0] / 8;
      var rateIndex := d[0] % 8 * 2 + d[1] / 0x80;
      if objectType > 0 && rateIndex < 13
      then Some(AacConfig(if objectType > 4 then 3 else objectType - 1, rateIndex, d[1] / 8 % 0x10)) else None
  }

  function AdtsHeader(c: AacConfig, payloadLen: nat): Result<bytes>
    requires c.profile < 4 && c.rateIndex < 0x10 && c.channels < 0x10
  {
    var n := payloadLen + 7;
    if n > 0x1fff then Err(Codec)
    else Ok([0xff, 0xf1, c.profile * 0x40 + c.rateIndex * 4 + c.channels / 4, c.channels % 4 * 0x40 + n / 0x800 % 4,
             n / 8 % 0x100, n % 8 * 0x20 + 0x1f, 0xfc])
  }

  /** The muxer's fields. */
  datatype State = State(tracks: seq<PsTrack>, aac: Option<AacConfig>, mapPending: bool)

  ghost predicate ValidAac(aac: Option<AacConfig>) {
    aac.Some? ==> aac.value.profile < 4 && aac.value.rateIndex < 0x10 && aac.value.channels < 0x10
  }

  function ElementaryPayload(f: MediaFrame, aac: Option<AacConfig>): Result<bytes>
    requires ValidAac(aac)
  {
    match f.codec
    case H264 => AnnexBUnits(f)
    case H265 => AnnexBUnits(f)
    case AAC =>
      var raw :- AacRawPayload(f);
      if aac.None? then Err(Codec)
      else
        var header :- AdtsHeader(aac.value, |raw|);
        Ok(header + raw)
    case G711A => Ok(RawAudioPayload(f))
    case G711U => Ok(RawAudioPayload(f))
    case Mp3 => Ok(RawAudioPayload(f))
    case MP2A => Ok(RawAudioPayload(f))
    case _ => Err(Unsupported)
  }

  function PesUnits(track: PsTrack, pts: nat, dts: nat, chunks: seq<bytes>): (r: seq<Unit>)
    ensures |r| == |chunks|
    ensures forall i :: 0 <= i < |r| ==> r[i] == Pes(track, pts, dts, chunks[i])
  {
    seq(|chunks|, i requires 0 <= i < |chunks| => Pes(track, pts, dts, chunks[i]))
  }

  /** The 13-bit length field of an ADTS header. */
  function AdtsLength(d: bytes): nat
    requires 7 <= |d|
  {
    d[3] as int % 4 * 0x800 + d[4] as int * 8 + d[5] as int / 0x20
  }

  lemma {:induction false} LengthDigits(n: nat)
    ensures n / 0x800 % 4 * 0x800 + n / 8 % 0x100 * 8 + n % 8 == n % 0x2000
  {
    var d, m := n % 8, n / 8;
    var c, k := m % 0x100, m / 0x100;
    var b, a := k % 4, k / 4;
    DivMod(0x800, k, 8 * c + d);
    DivMod(0x2000, a, 0x800 * b + 8 * c + d);
  }

  /** The third byte of the header: two bits of profile, four of sample rate, the upper bits of the channels. */
  lemma {:induction false} ThirdByte(profile: nat, rate: nat, high: nat)
    requires profile < 4 && rate < 0x10 && high < 4
    ensures var b := profile * 0x40 + rate * 4 + high;
            b < 0x100 && b / 0x40 == profile && b / 4 % 0x10 == rate && b % 2 == high % 2
  {
    DivMod(0x40, profile, rate * 4 + high);
    DivMod(4, profile * 0x10 + rate, high);
    DivMod(0x10, profile, rate);
  }

  lemma {:induction false} FourthByte(channels: nat, high: nat)
    requires channels < 0x10 && high < 4
    ensures var b := channels % 4 * 0x40 + high;
            && b < 0x100 && b / 0x40 == channels % 4 && b % 4 == high
            && channels / 4 % 2 * 4 + channels % 4 == channels % 8
  {
    DivMod(0x40, channels % 4, high);
    DivMod(4, channels % 4 * 0x10, high);
  }

  /** What a reader of an ADTS frame finds in it. */
  ghost predicate AdtsFields(d: bytes, raw: bytes, profile: nat, rate: nat, channels: nat) {
    && 7 < |d| && d[0] == 0xff && d[1] == 0xf1 && d[7..] == raw && AdtsLength(d) == |d| % 0x2000
    && d[2] / 0x40 == profile && d[2] / 4 % 0x10 == rate && d[2] % 2 * 4 + d[3] / 0x40 == channels
  }

  /** The layout both writers of such a header use. */
  ghost predicate AdtsLayout(d: bytes, raw: bytes, profile: nat, rate: nat, channels: nat, high: nat) {
    var n := |raw| + 7;
    && raw != [] && |d| == n && d[0] == 0xff && d[1] == 0xf1 && d[7..] == raw
    && d[2] as int == profile * 0x40 + rate * 4 + high && d[3] as int == channels % 4 * 0x40 + n / 0x800 % 4
    && d[4] as int == n / 8 % 0x100 && d[5] as int == n % 8 * 0x20 + 0x1f
  }

  lemma {:induction false} LayoutIsRead(d: bytes, raw: bytes, profile: nat, rate: nat, channels: nat, high: nat)
    requires profile < 4 && rate < 0x10 && channels < 0x10 && high < 4 && high % 2 == channels / 4 % 2
    requires AdtsLayout(d, raw, profile, rate, channels, high)
    ensures AdtsFields(d, raw, profile, rate, channels % 8)
  {
    var n := |raw| + 7;
    ThirdByte(profile, rate, high);
    FourthByte(channels, n / 0x800 % 4);
    LengthDigits(n);
    DivMod(0x20, n % 8, 0x1f);
  }

  lemma {:induction false} FieldsAreRead(d: bytes, raw: bytes, profile: nat, rate: nat, channels: nat)
    requires profile < 4 && rate < 0x10 && channels < 8 && AdtsFields(d, raw, profile, rate, channels)
    ensures StripAdtsHeader(d) == Ok(raw) && AdtsLength(d) == |d| % 0x2000
    ensures AscFromAdts(d) == Ok([(profile + 1) * 8 + rate / 2, rate % 2 * 0x80 + channels * 8])
  {
    hide AdtsLength;
  }

  /** What a reader makes of the two parameter bytes. */
  lemma {:induction false} AscBytes(profile: nat, rate: nat, channels: nat)
    requires profile < 4 && rate < 13 && channels < 8
    ensures var d: bytes := [(profile + 1) * 8 + rate / 2, rate % 2 * 0x80 + channels * 8];
            ParseAacConfig(d) == Some(AacConfig(profile, rate, channels))
  {
    DivMod(8, profile + 1, rate / 2);
    DivMod(0x80, rate % 2, channels * 8);
    DivMod(8, rate % 2 * 0x10 + channels, 0);
    DivMod(0x10, rate % 2, channels);
  }

  lemma {:induction false} HeaderLayout(c: AacConfig, raw: bytes)
    requires c.profile < 4 && c.rateIndex < 0x10 && c.channels < 0x10 && raw != [] && AdtsHeader(c, |raw|).Ok?
    ensures AdtsLayout(AdtsHeader(c, |raw|).value + raw, raw, c.profile, c.rateIndex, c.channels, c.channels / 4)
    ensures |AdtsHeader(c, |raw|).value| == 7 && |raw| + 7 < 0x2000
  {
  }

  /** An AAC frame behind its header is stripped back to the frame, its length field is right, and its
    * parameters come back exactly if there are fewer than eight channels. */
  lemma {:induction false} AdtsRoundTrip(c: AacConfig, raw: bytes)
    requires c.profile < 4 && c.rateIndex < 13 && c.channels < 0x10 && raw != []
    requires AdtsHeader(c, |raw|).Ok?
    ensures var d := AdtsHeader(c, |raw|).value + raw;
            && StripAdtsHeader(d) == Ok(raw) && AdtsLength(d) == |d|
            && AscFromAdts(d).Ok? && (ParseAacConfig(AscFromAdts(d).value) == Some(c) <==> c.channels < 8)
  {
    hide *;
    HeaderLayout(c, raw);
    var d := AdtsHeader(c, |raw|).value + raw;
    LayoutIsRead(d, raw, c.profile, c.rateIndex, c.channels, c.channels / 4);
    FieldsAreRead(d, raw, c.profile, c.rateIndex, c.channels % 8);
    AscBytes(c.profile, c.rateIndex, c.channels % 8);
  }

  /** A configuration of eight channels does not come back. */
  lemma {:induction false} AdtsCanFail()
    ensures var c := AacConfig(1, 3, 8);
            var header := AdtsHeader(c, 1);
            && header.Ok? && AscFromAdts(header.value + [0]).Ok?
            && ParseAacConfig(AscFromAdts(header.value + [0]).value) != Some(c)
  {
    assert AdtsHeader(AacConfig(1, 3, 8), 1).Ok?;
    hide AdtsHeader, AscFromAdts, ParseAacConfig, StripAdtsHeader, AdtsLength;
    AdtsRoundTrip(AacConfig(1, 3, 8), [0]);
  }
}
