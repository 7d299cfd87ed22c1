/** Payload normalisation of media frames (crates/core/src/payload.rs), as pure dispatch. */
module Payload {
  import opened Bytes
  import opened Frames
  import opened NalUnits
  import opened NalFraming

  const FLV_VIDEO_HEADER_LEN: nat := 5
  const FLV_AUDIO_HEADER_LEN: nat := 2

  predicate StartsWithAnnexB(d: bytes) {
    Code3(d, 0) || Code4(d, 0)
  }

  predicate IsAdts(d: bytes) {
    |d| >= 7 && d[0] == 0xff && d[1] / 0x10 == 0xf && d[1] / 2 % 4 == 0
  }

  function VideoFormat(f: MediaFrame): PayloadFormat {
    if f.format != UnknownFormat then f.format
    else if StartsWithAnnexB(f.data) then PayloadFormat.AnnexB
    else if |f.data| >= FLV_VIDEO_HEADER_LEN && f.data[0] % 0x10 in {7, 12} && f.data[1] % 0x10 <= 1 then Flv
    else if f.codec == H265 then Hvcc
    else Avcc
  }

  function AacFormat(f: MediaFrame): PayloadFormat {
    if f.format != UnknownFormat then f.format
    else if |f.data| >= 2 && f.data[0] / 0x10 == 10 && f.data[1] <= 1 then Flv
    else if IsAdts(f.data) then Adts
    else if f.configFrame then AacAudioSpecificConfig
    else AacRaw
  }

  function VideoDecoderConfig(f: MediaFrame): Result<bytes> {
    if !f.codec.H264? && !f.codec.H265? then Err(Unsupported)
    else
      var format := VideoFormat(f);
      var flvConfig := format == Flv && |f.data| > 1 && f.data[1] % 0x10 == 0;
      if !f.configFrame && !flvConfig then Err(Codec)
      else
        match format
        case Flv =>
          if |f.data| <= FLV_VIDEO_HEADER_LEN || f.data[1] % 0x10 != 0 then Err(Codec)
          else Ok(f.data[FLV_VIDEO_HEADER_LEN..])
        case Avcc => if f.codec.H264? then Ok(f.data) else Err(Unsupported)
        case Hvcc => if f.codec.H265? then Ok(f.data) else Err(Unsupported)
        case _ => Err(Unsupported)
  }

  function VideoSampleLengthPrefixed(f: MediaFrame): Result<bytes> {
    if f.configFrame then Err(Codec)
    else if !f.codec.H264? && !f.codec.H265? then Err(Unsupported)
    else
      match VideoFormat(f)
      case Flv =>
        if |f.data| <= FLV_VIDEO_HEADER_LEN || f.data[1] % 0x10 != 1 then Err(Codec)
        else Ok(f.data[FLV_VIDEO_HEADER_LEN..])
      case Avcc => Ok(f.data)
      case Hvcc => Ok(f.data)
      case AnnexB => ToLengthPrefixed(f.data)
      case _ => Err(Unsupported)
  }

  function VideoSampleAnnexB(f: MediaFrame): Result<bytes> {
    if f.configFrame then Err(Codec)
    else
      match VideoFormat(f)
      case AnnexB => Ok(f.data)
      case Flv =>
        var sample :- VideoSampleLengthPrefixed(f);
        ToAnnexB(sample)
      case Avcc => ToAnnexB(f.data)
      case Hvcc => ToAnnexB(f.data)
      case _ => Err(Unsupported)
  }

  /** A parse position and the Annex-B bytes written so far. */
  datatype Cursor = Cursor(pos: nat, out: bytes)

  /** `count` units behind 16-bit lengths; they are written out when `keep`. */
  function U16Units(d: bytes, at: Cursor, count: nat, keep: bool): (r: Result<Cursor>)
    decreases count
  {
    if count == 0 then Ok(at)
    else if at.pos + 2 > |d| || at.pos + 2 + U16(d, at.pos) > |d| then Err(Codec)
    else
      var end := at.pos + 2 + U16(d, at.pos);
      var unit := d[at.pos + 2..end];
      U16Units(d, Cursor(end, if keep then at.out + CODE + unit else at.out), count - 1, keep)
  }

  /** `count` HEVC arrays; only VPS, SPS and PPS units are written out. */
  function HevcArrays(d: bytes, at: Cursor, count: nat): Result<Cursor>
    decreases count
  {
    if count == 0 then Ok(at)
    else if at.pos + 3 > |d| then Err(Codec)
    else
      var next :- U16Units(d, Cursor(at.pos + 3, at.out), U16(d, at.pos + 1), 32 <= d[at.pos] % 0x40 <= 34);
      HevcArrays(d, next, count - 1)
  }

  function VideoConfigAnnexB(f: MediaFrame): Result<bytes> {
    var d :- VideoDecoderConfig(f);
    if f.codec.H264? then
      if |d| < 6 then Err(Codec)
      else
        var sps :- U16Units(d, Cursor(6, []), d[5] % 0x20, true);
        if sps.pos >= |d| then Err(Codec)
        else
          var pps :- U16Units(d, Cursor(sps.pos + 1, sps.out), d[sps.pos], true);
          if pps.out == [] then Err(Codec) else Ok(pps.out)
    else
      if |d| < 23 then Err(Codec)
      else
        var arrays :- HevcArrays(d, Cursor(23, []), d[22]);
        if arrays.out == [] then Err(Codec) else Ok(arrays.out)
  }

  function AdtsHeaderLen(d: bytes): Result<nat> {
    if !IsAdts(d) then Err(Codec) else Ok(if d[1] % 2 != 0 then 7 else 9)
  }

  function StripAdtsHeader(d: bytes): Result<bytes> {
    var n :- AdtsHeaderLen(d);
    if |d| <= n then Err(Codec) else Ok(d[n..])
  }

  function AscFromAdts(d: bytes): Result<bytes> {
    var n :- AdtsHeaderLen(d);
    var profile := d[2] / 0x40 + 1;
    var frequency := d[2] / 4 % 0x10;
    var channels := d[2] % 2 * 4 + d[3] / 0x40;
    Ok([profile * 8 + frequency / 2, frequency % 2 * 0x80 + channels * 8])
  }

  function AacAsc(f: MediaFrame): Result<bytes> {
    var format := AacFormat(f);
    var flvConfig := format == Flv && |f.data| > 1 && f.data[1] == 0;
    if f.codec != AAC || (!f.configFrame && !flvConfig) then Err(Codec)
    else
      match format
      case Flv =>
        if |f.data| <= FLV_AUDIO_HEADER_LEN || f.data[1] != 0 then Err(Codec)
        else Ok(f.data[FLV_AUDIO_HEADER_LEN..])
      case AacAudioSpecificConfig => Ok(f.data)
      case Adts => AscFromAdts(f.data)
      case _ => Err(Unsupported)
  }

  function AacRawPayload(f: MediaFrame): Result<bytes> {
    if f.codec != AAC || f.configFrame then Err(Codec)
    else
      match AacFormat(f)
      case Flv =>
        if |f.data| <= FLV_AUDIO_HEADER_LEN || f.data[1] != 1 then Err(Codec)
        else Ok(f.data[FLV_AUDIO_HEADER_LEN..])
      case AacRaw => Ok(f.data)
      case Adts => StripAdtsHeader(f.data)
      case _ => Err(Unsupported)
  }

  /** FLV audio behind a codec header loses it; anything else is passed through. */
  function RawAudioPayload(f: MediaFrame): bytes {
    if f.data != [] && (f.format == Flv || (f.format == UnknownFormat && f.data[0] / 0x10 in {2, 7, 8}))
    then f.data[1..] else f.data
  }

  /** The Annex-B elementary stream a frame contributes to PS, TS and RTP. */
  function AnnexBUnits(f: MediaFrame): Result<bytes> {
    if f.configFrame then VideoConfigAnnexB(f) else VideoSampleAnnexB(f)
  }
}
