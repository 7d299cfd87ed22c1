/** The media frame every protocol of the server publishes (crates/core/src/media_frame.rs). */
module Frames {
  import opened Bytes

  type u32 = x: int | 0 <= x < 0x1_0000_0000

  type u64 = x: int | 0 <= x < 0x1_0000_0000_0000_0000

  datatype CodecId =
    | H264 | H265 | AAC | G711A | G711U | Opus | Mp3 | L16 | VP8 | VP9 | AV1 | JPEG | MP2V | MP2A
    | Unknown(code: u32)

  datatype FrameType = Video | Audio | Metadata

  datatype PayloadFormat =
    | UnknownFormat | Flv | Avcc | Hvcc | AnnexB | AacAudioSpecificConfig | AacRaw | Adts | OpusPacket | Raw | Amf0

  datatype MediaFrame = MediaFrame(
    trackId: u32, frameType: FrameType, codec: CodecId, timestamp: u32, pts: u64, dts: u64,
    data: bytes, format: PayloadFormat, keyFrame: bool, configFrame: bool)

  datatype Error = Codec | Unsupported

  datatype Result<+T> = Ok(value: T) | Err(error: Error) {
    predicate IsFailure() {
      Err?
    }

    function PropagateFailure<U>(): Result<U>
      requires Err?
    {
      Err(error)
    }

    function Extract(): T
      requires Ok?
    {
      value
    }
  }
}
