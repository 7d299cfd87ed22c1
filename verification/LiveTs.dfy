/** The live MPEG-TS muxer (crates/hls/src/live_ts.rs with the writer of crates/hls/src/muxer.rs). */
module LiveTs {
  import opened Bytes
  import opened Frames
  import opened Payload
  import opened Ts
  import Bits
  import Crc
  import PsMux
  import PsDemux
  import PsStream

  // ---- PES packets ----

  /** The five bytes of a presentation time stamp behind marker 0x21. */
  function PtsBytes(pts: nat): (r: bytes)
    ensures |r| == 5
  {
    [0x21 + pts / 0x4000_0000 % 8 * 2, pts / 0x40_0000 % 0x100, pts / 0x8000 % 0x80 * 2 + 1, pts / 0x80 % 0x100,
     pts % 0x80 * 2 + 1]
  }

  function DataPes(streamId: byte, data: bytes, timestamp: u32): (r: bytes)
    ensures |r| == 14 + |data|
  {
    [0, 0, 1, streamId] + BE16(|data| + 8) + [0x84, 0x80, 5] + PtsBytes(timestamp * 90) + data
  }

  function ConfigPes(streamId: byte, config: bytes): (r: bytes)
    ensures |r| == 9 + |config|
  {
    [0, 0, 1, streamId] + BE16(|config| + 3) + [0x84, 0, 0] + config
  }

  lemma {:induction false} Add8(a: nat, r: nat)
    ensures (8 * a + r) % 8 == r % 8
  {
  }

  lemma {:induction false} Add80(a: nat, r: nat)
    ensures (0x80 * a + r) % 0x80 == r % 0x80
  {
  }

  lemma {:induction false} Add100(a: nat, r: nat)
    ensures (0x100 * a + r) % 0x100 == r % 0x100
  {
  }

  lemma {:induction false} Quotients(k: nat, v: nat)
    requires v < PsMux.PTS_MODULUS
    ensures (0x2_0000_0000 * k + v) / 0x4000_0000 == 8 * k + v / 0x4000_0000
    ensures (0x2_0000_0000 * k + v) / 0x40_0000 == 0x100 * (8 * k) + v / 0x40_0000
    ensures (0x2_0000_0000 * k + v) / 0x8000 == 0x80 * (0x800 * k) + v / 0x8000
    ensures (0x2_0000_0000 * k + v) / 0x80 == 0x100 * (0x4_0000 * k) + v / 0x80
  {
  }

  lemma {:induction false} PtsDigits(pts: nat, v: nat)
    requires v == pts % PsMux.PTS_MODULUS
    ensures pts / 0x4000_0000 % 8 == v / 0x4000_0000 && pts / 0x40_0000 % 0x100 == v / 0x40_0000 % 0x100
    ensures pts / 0x8000 % 0x80 == v / 0x8000 % 0x80 && pts / 0x80 % 0x100 == v / 0x80 % 0x100 && pts % 0x80 == v % 0x80
  {
    var k := pts / PsMux.PTS_MODULUS;
    Quotients(k, v);
    Add8(k, v / 0x4000_0000);
    Add100(8 * k, v / 0x40_0000);
    Add80(0x800 * k, v / 0x8000);
    Add100(0x4_0000 * k, v / 0x80);
    Add80(0x400_0000 * k, v);
    TopBits(v);
  }

  lemma {:induction false} TopBits(v: nat)
    requires v < PsMux.PTS_MODULUS
    ensures v / 0x4000_0000 % 8 == v / 0x4000_0000
  {
  }

  lemma {:induction false} FirstByte(q: nat)
    requires q < 8
    ensures 0x21 + q % 8 * 2 == 2 * 0x10 + q * 2 + 1
  {
  }

  /** The time stamp bytes depend on 33 bits only and are those of the program stream writer. */
  lemma {:induction false} PtsIsEncoded(pts: nat)
    ensures PtsBytes(pts) == PsMux.EncodeTimestamp(2, pts % PsMux.PTS_MODULUS)
  {
    var v := pts % PsMux.PTS_MODULUS;
    PtsDigits(pts, v);
    FirstByte(v / 0x4000_0000);
    EncodedIs(v);
    hide PsMux.EncodeTimestamp;
  }

  lemma {:induction false} EncodedIs(v: nat)
    requires v < PsMux.PTS_MODULUS
    ensures PsMux.EncodeTimestamp(2, v)
            == [2 * 0x10 + v / 0x4000_0000 * 2 + 1, v / 0x40_0000 % 0x100, v / 0x8000 % 0x80 * 2 + 1, v / 0x80 % 0x100,
                v % 0x80 * 2 + 1]
  {
    assert v % PsMux.PTS_MODULUS == v;
  }

  lemma {:induction false} DataPesFields(streamId: byte, data: bytes, timestamp: u32)
    ensures var d := DataPes(streamId, data, timestamp);
            && d[3] == streamId && U16(d, 4) == (|data| + 8) % 0x1_0000 && d[6] == 0x84 && d[7] == 0x80 && d[8] == 5
            && d[9..14] == PtsBytes(timestamp * 90) && d[14..] == data
  {
    hide PtsBytes;
    var d := DataPes(streamId, data, timestamp);
    assert d[4] == BE16(|data| + 8)[0] && d[5] == BE16(|data| + 8)[1];
    LowWord(|data| + 8);
  }

  /** A reader gets the frame and its time back if and only if the frame has at most 65527 bytes: above, the
    * length field wraps. */
  lemma {:induction false} DataPesRoundTrip(streamId: byte, data: bytes, timestamp: u32)
    ensures var d := DataPes(streamId, data, timestamp);
            PsDemux.ParsePes(d)
              == PsDemux.Complete(PsDemux.PesPacket(streamId, data, Some(timestamp * 90 % PsMux.PTS_MODULUS)), |d|)
            <==> |data| <= 65_527
  {
    hide DataPes, PtsBytes, U16, PsMux.EncodeTimestamp, PsDemux.DecodeTimestamp, PsDemux.StartCodeFrom;
    var d := DataPes(streamId, data, timestamp);
    DataPesFields(streamId, data, timestamp);
    PtsIsEncoded(timestamp * 90);
    PsStream.TimestampRoundTrip(2, timestamp * 90 % PsMux.PTS_MODULUS, d, 9);
    if |data| <= 65_527 {
      assert d[14..14 + |data|] == data;
    } else {
      var r := PsDemux.ParsePes(d);
      assert r.Complete? ==> |r.pes.data| < |data|;
    }
  }

  lemma {:induction false} ConfigPesFields(streamId: byte, config: bytes)
    ensures var d := ConfigPes(streamId, config);
            && d[3] == streamId && U16(d, 4) == (|config| + 3) % 0x1_0000 && d[6] == 0x84 && d[7] == 0 && d[8] == 0
            && d[9..] == config
  {
    var d := ConfigPes(streamId, config);
    assert d[4] == BE16(|config| + 3)[0] && d[5] == BE16(|config| + 3)[1];
    LowWord(|config| + 3);
  }

  /** A reader gets a configuration back, without a time, if and only if it has at most 65532 bytes. */
  lemma {:induction false} ConfigPesRoundTrip(streamId: byte, config: bytes)
    ensures var d := ConfigPes(streamId, config);
            PsDemux.ParsePes(d) == PsDemux.Complete(PsDemux.PesPacket(streamId, config, None), |d|)
            <==> |config| <= 65_532
  {
    hide ConfigPes, U16, PsDemux.DecodeTimestamp, PsDemux.StartCodeFrom;
    var d := ConfigPes(streamId, config);
    ConfigPesFields(streamId, config);
    if |config| <= 65_532 {
      assert d[9..9 + |config|] == config;
    } else {
      var r := PsDemux.ParsePes(d);
      assert r.Complete? ==> |r.pes.data| < |config|;
    }
  }

  /** A frame of 65528 bytes writes the length zero, and a reader does not get it back. */
  lemma {:induction false} DataPesCanFail()
    ensures var data: bytes := seq(65_528, i => 0);
            var d := DataPes(0xe0, data, 0);
            && U16(d, 4) == 0
            && PsDemux.ParsePes(d) != PsDemux.Complete(PsDemux.PesPacket(0xe0, data, Some(0)), |d|)
  {
    hide DataPes, PsDemux.ParsePes;
    var data: bytes := seq(65_528, i => 0);
    DataPesFields(0xe0, data, 0);
    DataPesRoundTrip(0xe0, data, 0);
  }

  // ---- program tables ----

  const PAT_SECTION: bytes := [0, 0xb0, 0x0d, 0, 1, 0xc1, 0, 0, 0, 1, 0xf0, 0]

  function PmtSection(streamType: byte): bytes {
    [2, 0xb0, 0x17, 0, 1, 0xc1, 0, 0, 0xe1, 0, 0xf0, 0, streamType, 0xe1, 0, 0xf0, 0, 0x0f, 0xe1, 1, 0xf0, 0]
  }

  function PatPacket(continuity: nat): bytes {
    Packet(PAT_PID, [], [0] + PAT_SECTION + Crc.Crc32(PAT_SECTION), true, continuity)
  }

  function PmtPacket(streamType: byte, continuity: nat): bytes {
    Packet(PMT_PID, [], [0] + PmtSection(streamType) + Crc.Crc32(PmtSection(streamType)), true, continuity)
  }

  // ---- the writer ----

  datatype Counters = Counters(video: nat, audio: nat, pat: nat, pmt: nat)

  function CounterOf(c: Counters, pid: nat): nat {
    if pid == VIDEO_PID then c.video else if pid == AUDIO_PID then c.audio else if pid == PMT_PID then c.pmt else c.pat
  }

  /** What one call of the writer puts out. */
  datatype Unit =
    | Tables(streamType: byte)
    | Config(video: bool, config: bytes, dts: u64)
    | Media(video: bool, data: bytes, timestamp: u32, key: bool, dts: u64)

  function PidOf(video: bool): nat {
    if video then VIDEO_PID else AUDIO_PID
  }

  function StreamIdOf(video: bool): byte {
    if video then 0xe0 else 0xc0
  }

  function Pcr(dts: u64): nat {
    dts * 27_000 % 0x1_0000_0000_0000_0000
  }

  function Packets(c: Counters, u: Unit): seq<bytes> {
    match u
    case Tables(streamType) => [PatPacket(c.pat), PmtPacket(streamType, c.pmt)]
    case Config(video, config, dts) =>
      PesPackets(PidOf(video), ConfigPes(StreamIdOf(video), config), true, CounterOf(c, PidOf(video)), Pcr(dts))
    case Media(video, data, timestamp, key, dts) =>
      PesPackets(PidOf(video), DataPes(StreamIdOf(video), data, timestamp), key, CounterOf(c, PidOf(video)), Pcr(dts))
  }

  function Advanced(c: Counters, pid: nat, n: nat): Counters {
    if pid == VIDEO_PID then c.(video := (c.video + n) % 0x10) else c.(audio := (c.audio + n) % 0x10)
  }

  function After(c: Counters, u: Unit): Counters {
    if u.Tables? then c.(pat := (c.pat + 1) % 0x10, pmt := (c.pmt + 1) % 0x10)
    else Advanced(c, PidOf(u.video), |Packets(c, u)|)
  }

  function AllPackets(c: Counters, us: seq<Unit>): seq<bytes>
    decreases |us|
  {
    if us == [] then [] else Packets(c, us[0]) + AllPackets(After(c, us[0]), us[1..])
  }

  function AfterAll(c: Counters, us: seq<Unit>): Counters
    decreases |us|
  {
    if us == [] then c else AfterAll(After(c, us[0]), us[1..])
  }

  lemma {:induction false} AllPacketsAppend(c: Counters, a: seq<Unit>, u: Unit)
    ensures AllPackets(c, a + [u]) == AllPackets(c, a) + Packets(AfterAll(c, a), u)
    ensures AfterAll(c, a + [u]) == After(AfterAll(c, a), u)
    decreases |a|
  {
    hide Packets, After;
    if a == [] {
      assert a + [u] == [u] && [u][1..] == [];
    } else {
      assert (a + [u])[1..] == a[1..] + [u];
      AllPacketsAppend(After(c, a[0]), a[1..], u);
      Assoc(Packets(c, a[0]), AllPackets(After(c, a[0]), a[1..]), Packets(AfterAll(c, a), u));
    }
  }

  class TsWriter {
    var continuityVideo: nat
    var continuityAudio: nat
    var continuityPat: nat
    var continuityPmt: nat
    var pcr: nat

    function Value(): Counters
      reads this
    {
      Counters(continuityVideo, continuityAudio, continuityPat, continuityPmt)
    }

    constructor ()
      ensures Value() == Counters(0, 0, 0, 0)
    {
      continuityVideo, continuityAudio, continuityPat, continuityPmt, pcr := 0, 0, 0, 0, 0;
    }

    method WritePatPmt(sent: bytes, streamType: byte) returns (out: bytes)
      modifies this
      ensures out == sent + Concat(Packets(old(Value()), Tables(streamType)))
      ensures Value() == After(old(Value()), Tables(streamType))
    {
      hide Packet, Bits.Pack, Crc.Feed, Concat;
      var crc := Crc.Mpeg2Crc32(PAT_SECTION);
      var pat, nextPat := WritePacket(PAT_PID, [0] + PAT_SECTION + Bits.Pack(crc), true, continuityPat);
      var pmt := PmtSection(streamType);
      crc := Crc.Mpeg2Crc32(pmt);
      var map_, nextPmt := WritePacket(PMT_PID, [0] + pmt + Bits.Pack(crc), true, continuityPmt);
      continuityPat, continuityPmt := nextPat, nextPmt;
      ConcatTwo(pat, map_);
      Assoc(sent, pat, map_);
      out := sent + pat + map_;
    }

    method WritePes(sent: bytes, pid: nat, pes: bytes, randomAccess: bool, dts: u64) returns (out: bytes)
      requires pid == VIDEO_PID || pid == AUDIO_PID
      modifies this
      ensures out == sent + Concat(PesPackets(pid, pes, randomAccess, CounterOf(old(Value()), pid), Pcr(dts)))
      ensures Value()
              == Advanced(old(Value()), pid,
                          |PesPackets(pid, pes, randomAccess, CounterOf(old(Value()), pid), Pcr(dts))|)
    {
      hide PesPackets, Concat;
      pcr := Pcr(dts);
      if pid == VIDEO_PID {
        var next;
        out, next := WritePesPackets(sent, pid, pes, randomAccess, continuityVideo, pcr);
        continuityVideo := next;
      } else {
        var next;
        out, next := WritePesPackets(sent, pid, pes, randomAccess, continuityAudio, pcr);
        continuityAudio := next;
      }
    }
  }

  lemma {:induction false} ConcatTwo(a: bytes, b: bytes)
    ensures Concat([a, b]) == a + b
  {
    assert [a, b][1..] == [b];
    ConcatOne(b);
  }

  // ---- configuration ----

  predicate FlvOrUnknown(f: MediaFrame) {
    f.format == Flv || f.format == UnknownFormat
  }

  predicate IsVideoConfig(f: MediaFrame) {
    || f.configFrame
    || (FlvOrUnknown(f) && 2 <= |f.data| && (f.data[0] % 0x10 == 7 || f.data[0] % 0x10 == 12) && f.data[1] % 0x10 == 0)
  }

  predicate IsAacConfig(f: MediaFrame) {
    f.configFrame || (FlvOrUnknown(f) && 2 <= |f.data| && f.data[0] / 0x10 == 10 && f.data[1] % 0x10 == 0)
  }

  /** A position in a configuration record and the Annex-B bytes taken so far. */
  datatype Cut = Cut(pos: nat, out: bytes)

  /** Up to `count` units behind 16-bit lengths; stops at the first that is cut off. */
  function TakeUnits(d: bytes, at: Cut, count: nat, keep: bool): Cut
    decreases count
  {
    if count == 0 || at.pos + 2 > |d| then at
    else
      var n := U16(d, at.pos);
      var pos := at.pos + 2;
      if pos + n > |d| then Cut(pos, at.out)
      else TakeUnits(d, Cut(pos + n, if keep then at.out + [0, 0, 0, 1] + d[pos..pos + n] else at.out), count - 1, keep)
  }

  function AvcConfig(d: bytes): bytes {
    if |d| < 6 then []
    else
      var sps := TakeUnits(d, Cut(6, []), d[5] % 0x20, true);
      if sps.pos < |d| then TakeUnits(d, Cut(sps.pos + 1, sps.out), d[sps.pos], true).out else sps.out
  }

  function HevcUnits(d: bytes, at: Cut, arrays: nat): Cut
    decreases arrays
  {
    if arrays == 0 || at.pos + 3 > |d| then at
    else
      var nalType := d[at.pos] % 0x40;
      HevcUnits(d, TakeUnits(d, Cut(at.pos + 3, at.out), U16(d, at.pos + 1), 32 <= nalType <= 34), arrays - 1)
  }

  function HevcConfig(d: bytes): bytes {
    if |d| < 23 then [] else HevcUnits(d, Cut(23, []), d[22]).out
  }

  function VideoConfigBytes(f: MediaFrame): bytes {
    match VideoDecoderConfig(f)
    case Err(_) => []
    case Ok(c) => if f.codec == H265 then HevcConfig(c) else AvcConfig(c)
  }

  function AacConfigBytes(f: MediaFrame): bytes {
    match AacAsc(f)
    case Err(_) => []
    case Ok(c) => c
  }

  function AdtsHeader(n: nat, config: bytes): (r: bytes)
    requires 2 <= |config|
    ensures |r| == 7
  {
    var word := U16(config, 0);
    var objectType := word / 0x800 % 0x20;
    var freq, channels, total := word / 0x80 % 0x10, word / 8 % 0x10, n + 7;
    var profile := if objectType == 0 then 0 else objectType - 1;
    [0xff, 0xf1, profile % 4 * 0x40 + freq * 4 + channels / 4 % 2, channels % 4 * 0x40 + total / 0x800 % 4,
     total / 8 % 0x100, total % 8 * 0x20 + 0x1f, 0]
  }

  lemma {:induction false} ConfigBits(config: bytes)
    requires 2 <= |config|
    ensures var word := U16(config, 0);
            && word / 0x800 % 0x20 == config[0] / 8 && word / 8 % 0x10 == config[1] / 8 % 0x10
            && word / 0x80 % 0x10 == config[0] % 8 * 2 + config[1] / 0x80
  {
    TypeBits(config[0] as int, config[1] as int);
    RateBits(config[0] as int, config[1] as int);
    ChannelBits(config[0] as int, config[1] as int);
  }

  lemma {:induction false} TypeBits(a: nat, b: nat)
    requires a < 0x100 && b < 0x100
    ensures (0x100 * a + b) / 0x800 % 0x20 == a / 8
  {
    DivMod(0x800, a / 8, 0x100 * (a % 8) + b);
  }

  lemma {:induction false} RateBits(a: nat, b: nat)
    requires a < 0x100 && b < 0x100
    ensures (0x100 * a + b) / 0x80 % 0x10 == a % 8 * 2 + b / 0x80
  {
    DivMod(0x80, 2 * a + b / 0x80, b % 0x80);
    DivMod(0x10, a / 8, a % 8 * 2 + b / 0x80);
  }

  lemma {:induction false} ChannelBits(a: nat, b: nat)
    requires a < 0x100 && b < 0x100
    ensures (0x100 * a + b) / 8 % 0x10 == b / 8 % 0x10
  {
    var c := b / 8;
    DivMod(8, 0x20 * a + c, b % 8);
    DivMod(0x10, 2 * a + c / 0x10, c % 0x10);
  }

  function ObjectProfile(objectType: nat): (r: nat)
    ensures r < 4
  {
    if objectType == 0 then 0 else (objectType - 1) % 4
  }

  lemma {:induction false} HeaderLayout(config: bytes, raw: bytes)
    requires 2 <= |config| && raw != []
    ensures var channels := config[1] / 8 % 0x10;
            PsMux.AdtsLayout(AdtsHeader(|raw|, config) + raw, raw, ObjectProfile(config[0] as int / 8),
                             config[0] as int % 8 * 2 + config[1] as int / 0x80, channels, channels / 4 % 2)
  {
    hide U16;
    ConfigBits(config);
  }

  /** Both bytes come back, padding bits aside, exactly for object types one to four and fewer than eight channels. */
  lemma {:induction false} ConfigReturns(a: byte, b: byte)
    ensures var rate, channels := a as int % 8 * 2 + b as int / 0x80, b as int / 8 % 0x10;
            && (ObjectProfile(a as int / 8) + 1) * 8 + rate / 2 == a as int
            && rate % 2 * 0x80 + channels % 8 * 8 == b as int / 8 * 8
            <==> 1 <= a / 8 <= 4 && channels < 8
  {
    var t, u, h, c := a as int / 8, a as int % 8, b as int / 0x80, b as int / 8 % 0x10;
    DivMod(2, u, h);
    DivMod(0x10, h, c);
    assert b as int / 8 == 0x10 * h + c;
    ProfileReturns(t, u);
  }

  lemma {:induction false} ProfileReturns(t: nat, u: nat)
    requires t < 0x20 && u < 8
    ensures (ObjectProfile(t) + 1) * 8 + u == t * 8 + u <==> 1 <= t <= 4
  {
  }

  /** The frame is stripped back, its length field is right below 8192 bytes, and the first two configuration bytes
    * come back, padding bits aside, exactly for object types one to four and fewer than eight channels. */
  lemma {:induction false} AdtsRoundTrip(config: bytes, raw: bytes)
    requires 2 <= |config| && raw != []
    ensures var d := AdtsHeader(|raw|, config) + raw;
            && StripAdtsHeader(d) == Ok(raw) && (PsMux.AdtsLength(d) == |d| <==> |d| < 0x2000)
            && AscFromAdts(d).Ok?
            && (AscFromAdts(d).value == [config[0], config[1] / 8 * 8] <==>
                  1 <= config[0] / 8 <= 4 && config[1] / 8 % 0x10 < 8)
  {
    hide AdtsHeader, PsMux.AdtsLength, PsMux.AdtsLayout, PsMux.AdtsFields, StripAdtsHeader, AscFromAdts, ObjectProfile;
    var d := AdtsHeader(|raw|, config) + raw;
    var profile, channels := ObjectProfile(config[0] as int / 8), config[1] as int / 8 % 0x10;
    var rate := config[0] as int % 8 * 2 + config[1] as int / 0x80;
    HeaderLayout(config, raw);
    PsMux.LayoutIsRead(d, raw, profile, rate, channels, channels / 4 % 2);
    PsMux.FieldsAreRead(d, raw, profile, rate, channels % 8);
    ConfigReturns(config[0], config[1]);
  }

  /** Object type five, AAC with spectral band replication, does not come back. */
  lemma {:induction false} AdtsCanFail()
    ensures var config: bytes := [0x2b, 0x10];
            var d := AdtsHeader(1, config) + [0];
            AscFromAdts(d).Ok? && AscFromAdts(d).value != config
  {
    hide AdtsHeader, AscFromAdts, StripAdtsHeader, PsMux.AdtsLength;
    AdtsRoundTrip([0x2b, 0x10], [0]);
  }

  function AacAdts(f: MediaFrame, config: Option<bytes>): bytes {
    if f.codec != AAC || f.configFrame then []
    else if f.format == Adts then f.data
    else
      match AacRawPayload(f)
      case Err(_) => []
      case Ok(raw) => if config.None? || |config.value| < 2 then [] else AdtsHeader(|raw|, config.value) + raw
  }

  // ---- one frame ----

  datatype Live = Live(
    started: bool, codec: Option<CodecId>, videoConfig: Option<bytes>, videoSent: bool, audioConfig: Option<bytes>,
    audioSent: bool)

  const NEW := Live(false, None, None, false, None, false)

  /** The codec and the configuration are learnt before anything is written. */
  function Learnt(s: Live, f: MediaFrame): Live {
    if f.frameType == Video then
      var t := s.(codec := Some(f.codec));
      if IsVideoConfig(f) then t.(videoConfig := Some(VideoConfigBytes(f)), videoSent := false) else t
    else if f.frameType == Audio && IsAacConfig(f) then s.(audioConfig := Some(AacConfigBytes(f)), audioSent := false)
    else s
  }

  function TablesFor(s: Live): seq<Unit> {
    if s.started then [] else [Tables(if s.codec == Some(H265) then 0x24 else 0x1b)]
  }

  /** The pending configuration of the frame's kind. */
  function Pending(s: Live, f: MediaFrame): seq<Unit> {
    if f.frameType == Video && !s.videoSent && s.videoConfig.Some? then [Config(true, s.videoConfig.value, f.dts)]
    else if f.frameType == Audio && !s.audioSent && s.audioConfig.Some? then [Config(false, s.audioConfig.value, f.dts)]
    else []
  }

  function MediaOf(s: Live, f: MediaFrame): seq<Unit> {
    if f.frameType == Video && !IsVideoConfig(f) then
      var data := VideoSampleAnnexB(f);
      if data.Ok? && data.value != [] then [Media(true, data.value, f.timestamp, f.keyFrame, f.dts)] else []
    else if f.frameType == Audio && !IsAacConfig(f) then
      var data := AacAdts(f, s.audioConfig);
      if data != [] then [Media(false, data, f.timestamp, false, f.dts)] else []
    else []
  }

  function Sent(s: Live, f: MediaFrame): Live {
    s.(started := true,
       videoSent := s.videoSent || (f.frameType == Video && s.videoConfig.Some?),
       audioSent := s.audioSent || (f.frameType == Audio && s.audioConfig.Some?))
  }

  function UnitsOf(s: Live, f: MediaFrame): seq<Unit> {
    var t := Learnt(s, f);
    TablesFor(t) + Pending(t, f) + MediaOf(t, f)
  }

  function Next(s: Live, f: MediaFrame): Live {
    Sent(Learnt(s, f), f)
  }

  class TsLiveMuxer {
    const writer: TsWriter
    var started: bool
    var videoCodec: Option<CodecId>
    var videoConfig: Option<bytes>
    var videoSent: bool
    var audioConfig: Option<bytes>
    var audioSent: bool

    function Value(): Live
      reads this
    {
      Live(started, videoCodec, videoConfig, videoSent, audioConfig, audioSent)
    }

    constructor ()
      ensures fresh(writer) && Value() == NEW && writer.Value() == Counters(0, 0, 0, 0)
    {
      started, videoCodec, videoConfig, videoSent, audioConfig, audioSent := false, None, None, false, None, false;
      writer := new TsWriter();
    }

    method Learn(f: MediaFrame)
      modifies this
      ensures Value() == Learnt(old(Value()), f)
    {
      hide VideoConfigBytes, AacConfigBytes, IsVideoConfig, IsAacConfig;
      if f.frameType == Video {
        videoCodec := Some(f.codec);
        if IsVideoConfig(f) {
          videoConfig, videoSent := Some(VideoConfigBytes(f)), false;
        }
      } else if f.frameType == Audio && IsAacConfig(f) {
        audioConfig, audioSent := Some(AacConfigBytes(f)), false;
      }
    }

    method PushVideo(sent: bytes, f: MediaFrame) returns (out: bytes)
      requires f.frameType == Video && started
      modifies this, writer
      ensures Value() == Sent(old(Value()), f)
      ensures var us := Pending(old(Value()), f) + MediaOf(old(Value()), f);
              && out == sent + Concat(AllPackets(old(writer.Value()), us))
              && writer.Value() == AfterAll(old(writer.Value()), us)
    {
      hide IsVideoConfig, AllPackets, AfterAll, Packets, After, Concat, VideoSampleAnnexB, PesPackets, DataPes,
           ConfigPes, CounterOf, Advanced, Pcr;
      ghost var c := writer.Value();
      ghost var us: seq<Unit> := [];
      NothingPut(c);
      out := sent;
      if !videoSent && videoConfig.Some? {
        ghost var u := Config(true, videoConfig.value, f.dts);
        PesUnit(writer.Value(), u);
        PutNext(c, us, u);
        out := writer.WritePes(out, VIDEO_PID, ConfigPes(0xe0, videoConfig.value), true, f.dts);
        videoSent := true;
        us := us + [u];
      }
      assert us == Pending(old(Value()), f);
      if !IsVideoConfig(f) {
        var annexB := VideoSampleAnnexB(f);
        var data := if annexB.Ok? then annexB.value else [];
        if data != [] {
          ghost var u := Media(true, data, f.timestamp, f.keyFrame, f.dts);
          PesUnit(writer.Value(), u);
          PutNext(c, us, u);
          Assoc(sent, Concat(AllPackets(c, us)), Concat(Packets(AfterAll(c, us), u)));
          out := writer.WritePes(out, VIDEO_PID, DataPes(0xe0, data, f.timestamp), f.keyFrame, f.dts);
          us := us + [u];
        }
      }
      assert us == Pending(old(Value()), f) + MediaOf(old(Value()), f);
    }

    method PushAudio(sent: bytes, f: MediaFrame) returns (out: bytes)
      requires f.frameType == Audio && started
      modifies this, writer
      ensures Value() == Sent(old(Value()), f)
      ensures var us := Pending(old(Value()), f) + MediaOf(old(Value()), f);
              && out == sent + Concat(AllPackets(old(writer.Value()), us))
              && writer.Value() == AfterAll(old(writer.Value()), us)
    {
      hide IsAacConfig, AllPackets, AfterAll, Packets, After, Concat, AacAdts, PesPackets, DataPes, ConfigPes,
           CounterOf, Advanced, Pcr;
      ghost var c := writer.Value();
      ghost var us: seq<Unit> := [];
      NothingPut(c);
      out := sent;
      if !audioSent && audioConfig.Some? {
        ghost var u := Config(false, audioConfig.value, f.dts);
        PesUnit(writer.Value(), u);
        PutNext(c, us, u);
        out := writer.WritePes(out, AUDIO_PID, ConfigPes(0xc0, audioConfig.value), true, f.dts);
        audioSent := true;
        us := us + [u];
      }
      assert us == Pending(old(Value()), f);
      if !IsAacConfig(f) {
        var data := AacAdts(f, audioConfig);
        if data != [] {
          ghost var u := Media(false, data, f.timestamp, false, f.dts);
          PesUnit(writer.Value(), u);
          PutNext(c, us, u);
          Assoc(sent, Concat(AllPackets(c, us)), Concat(Packets(AfterAll(c, us), u)));
          out := writer.WritePes(out, AUDIO_PID, DataPes(0xc0, data, f.timestamp), false, f.dts);
          us := us + [u];
        }
      }
      assert us == Pending(old(Value()), f) + MediaOf(old(Value()), f);
    }

    method PushFrame(f: MediaFrame) returns (out: bytes)
      modifies this, writer
      ensures Value() == Next(old(Value()), f)
      ensures out == Concat(AllPackets(old(writer.Value()), UnitsOf(old(Value()), f)))
      ensures writer.Value() == AfterAll(old(writer.Value()), UnitsOf(old(Value()), f))
    {
      hide Learnt, AllPackets, AfterAll, Packets, After, Concat, IsVideoConfig, IsAacConfig, VideoSampleAnnexB, AacAdts;
      ghost var c := writer.Value();
      Learn(f);
      ghost var t := Value();
      NothingPut(c);
      out := [];
      if !started {
        var streamType: byte := if videoCodec == Some(H265) then 0x24 else 0x1b;
        PutNext(c, [], Tables(streamType));
        out := writer.WritePatPmt(out, streamType);
        started := true;
        assert [] + [Tables(streamType)] == [Tables(streamType)];
      }
      ghost var us, more := TablesFor(t), Pending(t, f) + MediaOf(t, f);
      assert out == Concat(AllPackets(c, us)) && writer.Value() == AfterAll(c, us);
      StartedFirst(t, f);
      PutMore(c, us, more);
      Assoc(us, Pending(t, f), MediaOf(t, f));
      if f.frameType == Video {
        out := PushVideo(out, f);
      } else if f.frameType == Audio {
        out := PushAudio(out, f);
      } else {
        assert us + more == us;
      }
    }
  }

  /** Writing the tables first does not change what follows them. */
  lemma {:induction false} StartedFirst(t: Live, f: MediaFrame)
    ensures var s := t.(started := true);
            Pending(s, f) == Pending(t, f) && MediaOf(s, f) == MediaOf(t, f) && Sent(s, f) == Sent(t, f)
  {
    hide IsVideoConfig, IsAacConfig, VideoSampleAnnexB, AacAdts;
  }

  lemma {:induction false} PutMore(c: Counters, a: seq<Unit>, b: seq<Unit>)
    ensures Concat(AllPackets(c, a + b)) == Concat(AllPackets(c, a)) + Concat(AllPackets(AfterAll(c, a), b))
    ensures AfterAll(c, a + b) == AfterAll(AfterAll(c, a), b)
    decreases |a|
  {
    hide Packets, After, Concat;
    if a == [] {
      assert a + b == b;
      NothingPut(c);
      assert [] + Concat(AllPackets(c, b)) == Concat(AllPackets(c, b));
    } else {
      assert (a + b)[1..] == a[1..] + b;
      var d := After(c, a[0]);
      PutMore(d, a[1..], b);
      ConcatAppend(Packets(c, a[0]), AllPackets(d, a[1..] + b));
      ConcatAppend(Packets(c, a[0]), AllPackets(d, a[1..]));
      Assoc(Concat(Packets(c, a[0])), Concat(AllPackets(d, a[1..])), Concat(AllPackets(AfterAll(d, a[1..]), b)));
    }
  }

  lemma {:induction false} NothingPut(c: Counters)
    ensures AllPackets(c, []) == [] && AfterAll(c, []) == c && Concat([]) == []
  {
  }

  /** Putting out one more unit behind `us`. */
  lemma {:induction false} PutNext(c: Counters, us: seq<Unit>, u: Unit)
    ensures Concat(AllPackets(c, us + [u])) == Concat(AllPackets(c, us)) + Concat(Packets(AfterAll(c, us), u))
    ensures AfterAll(c, us + [u]) == After(AfterAll(c, us), u)
  {
    hide AllPackets, AfterAll, Packets, After, Concat;
    AllPacketsAppend(c, us, u);
    ConcatAppend(AllPackets(c, us), Packets(AfterAll(c, us), u));
  }

  lemma {:induction false} PesUnit(c: Counters, u: Unit)
    requires !u.Tables?
    ensures u.Config? ==>
              Packets(c, u) == PesPackets(PidOf(u.video), ConfigPes(StreamIdOf(u.video), u.config), true,
                                          CounterOf(c, PidOf(u.video)), Pcr(u.dts))
    ensures u.Media? ==>
              Packets(c, u) == PesPackets(PidOf(u.video), DataPes(StreamIdOf(u.video), u.data, u.timestamp), u.key,
                                          CounterOf(c, PidOf(u.video)), Pcr(u.dts))
    ensures After(c, u) == Advanced(c, PidOf(u.video), |Packets(c, u)|)
  {
    hide PesPackets, ConfigPes, DataPes;
  }

  // ---- runs ----

  datatype Ran = Ran(state: Live, units: seq<Unit>)

  /** `push_frame` over a list of frames; the last one comes last. */
  function Run(frames: seq<MediaFrame>): Ran {
    if frames == [] then Ran(NEW, [])
    else
      var r := Run(frames[..|frames| - 1]);
      var f := frames[|frames| - 1];
      Ran(Next(r.state, f), r.units + UnitsOf(r.state, f))
  }

  /** The latest configuration captured from the frames. */
  function Captured(frames: seq<MediaFrame>, video: bool): Option<bytes> {
    if frames == [] then None
    else
      var f := frames[|frames| - 1];
      if video && f.frameType == Video && IsVideoConfig(f) then Some(VideoConfigBytes(f))
      else if !video && f.frameType == Audio && IsAacConfig(f) then Some(AacConfigBytes(f))
      else Captured(frames[..|frames| - 1], video)
  }

  /** The latest configuration put out. */
  function LatestPut(us: seq<Unit>, video: bool): Option<bytes> {
    if us == [] then None
    else
      var u := us[|us| - 1];
      if u.Config? && u.video == video then Some(u.config) else LatestPut(us[..|us| - 1], video)
  }

  /** The tables come first and never again. */
  predicate TablesFirst(us: seq<Unit>) {
    us != [] ==> us[0].Tables? && forall i :: 1 <= i < |us| ==> !us[i].Tables?
  }

  ghost predicate RunOk(frames: seq<MediaFrame>) {
    var r := Run(frames);
    && (r.state.started <==> frames != []) && (r.units == [] <==> frames == []) && TablesFirst(r.units)
    && r.state.videoConfig == Captured(frames, true) && r.state.audioConfig == Captured(frames, false)
    && (r.state.videoSent ==> LatestPut(r.units, true) == r.state.videoConfig)
    && (r.state.audioSent ==> LatestPut(r.units, false) == r.state.audioConfig)
  }

  lemma {:induction false} LatestAppend(us: seq<Unit>, more: seq<Unit>, video: bool)
    ensures LatestPut(us + more, video)
            == if LatestPut(more, video).Some? then LatestPut(more, video) else LatestPut(us, video)
    decreases |more|
  {
    if more == [] {
      assert us + more == us;
    } else {
      assert (us + more)[..|us + more| - 1] == us + more[..|more| - 1];
      LatestAppend(us, more[..|more| - 1], video);
    }
  }

  lemma {:induction false} LatestOfStep(t: Live, f: MediaFrame, video: bool)
    ensures LatestPut(TablesFor(t), video) == None
    ensures LatestPut(MediaOf(t, f), video) == None
    ensures LatestPut(Pending(t, f), video)
            == if video && f.frameType == Video && !t.videoSent then t.videoConfig
               else if !video && f.frameType == Audio && !t.audioSent then t.audioConfig else None
  {
    hide IsVideoConfig, IsAacConfig, VideoSampleAnnexB, AacAdts;
  }

  /** What is in force once the pending configuration has been put out. */
  lemma {:induction false} PendingPut(us: seq<Unit>, t: Live, f: MediaFrame, video: bool)
    requires t.videoSent ==> LatestPut(us, true) == t.videoConfig
    requires t.audioSent ==> LatestPut(us, false) == t.audioConfig
    ensures var now := LatestPut(us + TablesFor(t) + Pending(t, f), video);
            && (Sent(t, f).videoSent && video ==> now == t.videoConfig)
            && (Sent(t, f).audioSent && !video ==> now == t.audioConfig)
            && LatestPut(us + TablesFor(t) + Pending(t, f) + MediaOf(t, f), video) == now
  {
    hide TablesFor, Pending, MediaOf, LatestPut;
    LatestOfStep(t, f, video);
    LatestAppend(us, TablesFor(t), video);
    LatestAppend(us + TablesFor(t), Pending(t, f), video);
    LatestAppend(us + TablesFor(t) + Pending(t, f), MediaOf(t, f), video);
  }

  lemma {:induction false} TablesStep(us: seq<Unit>, t: Live, f: MediaFrame)
    requires TablesFirst(us) && (t.started <==> us != [])
    ensures TablesFirst(us + TablesFor(t) + Pending(t, f) + MediaOf(t, f))
    ensures us + TablesFor(t) + Pending(t, f) + MediaOf(t, f) != []
  {
    hide IsVideoConfig, IsAacConfig, VideoSampleAnnexB, AacAdts;
  }

  lemma {:induction false} LearntIs(frames: seq<MediaFrame>, s: Live, f: MediaFrame)
    requires s.videoConfig == Captured(frames, true) && s.audioConfig == Captured(frames, false)
    ensures var t := Learnt(s, f);
            && t.videoConfig == Captured(frames + [f], true) && t.audioConfig == Captured(frames + [f], false)
            && t.started == s.started
            && (t.videoSent ==> s.videoSent && t.videoConfig == s.videoConfig)
            && (t.audioSent ==> s.audioSent && t.audioConfig == s.audioConfig)
  {
    hide IsVideoConfig, IsAacConfig, VideoConfigBytes, AacConfigBytes;
    assert (frames + [f])[..|frames|] == frames;
  }

  /** Every run keeps the order: tables once and first, configurations as captured. */
  lemma {:induction false} RunKeepsOrder(frames: seq<MediaFrame>)
    ensures RunOk(frames)
    decreases |frames|
  {
    if frames != [] {
      var init, f := frames[..|frames| - 1], frames[|frames| - 1];
      RunKeepsOrder(init);
      assert init + [f] == frames;
      var r := Run(init);
      var t := Learnt(r.state, f);
      LearntIs(init, r.state, f);
      hide Captured, Learnt, TablesFor, Pending, MediaOf, LatestPut, TablesFirst;
      TablesStep(r.units, t, f);
      PendingPut(r.units, t, f, true);
      PendingPut(r.units, t, f, false);
      RegroupUnits(r.units, TablesFor(t), Pending(t, f), MediaOf(t, f));
    }
  }

  lemma {:induction false} RegroupUnits(a: seq<Unit>, b: seq<Unit>, c: seq<Unit>, d: seq<Unit>)
    ensures a + (b + c + d) == a + b + c + d
  {
  }

  /** A media frame never precedes the configuration captured for its kind: right before it is put out, the latest
    * configuration put out is the latest one captured. */
  lemma {:induction false} ConfigBeforeMedia(frames: seq<MediaFrame>, f: MediaFrame)
    ensures var s := Run(frames).state;
            var t := Learnt(s, f);
            var before := Run(frames).units + TablesFor(t) + Pending(t, f);
            && Run(frames + [f]).units == before + MediaOf(t, f)
            && (MediaOf(t, f) != [] && Captured(frames + [f], f.frameType == Video).Some? ==>
                  LatestPut(before, f.frameType == Video) == Captured(frames + [f], f.frameType == Video))
  {
    hide Captured, LatestPut, TablesFirst, TablesFor, Pending;
    RunKeepsOrder(frames);
    var r := Run(frames);
    var t := Learnt(r.state, f);
    assert (frames + [f])[..|frames|] == frames;
    LearntIs(frames, r.state, f);
    PendingPut(r.units, t, f, f.frameType == Video);
    RegroupUnits(r.units, TablesFor(t), Pending(t, f), MediaOf(t, f));
    hide IsVideoConfig, IsAacConfig, VideoSampleAnnexB, AacAdts, Learnt;
  }
}
