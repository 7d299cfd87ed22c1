/** The FLV writer and the incremental FLV reader (crates/flv/src/muxer.rs, crates/flv/src/demuxer.rs). */
module Flv {
  import opened Bytes
  import opened Frames
  import opened Payload

  // ---- message payloads (crates/core/src/payload.rs) ----

  /** `pts - dts`, held inside the signed 24-bit field. */
  function Composition(f: MediaFrame): (r: int)
    ensures -0x80_0000 <= r < 0x80_0000
  {
    var c := Signed64(f.pts) - Signed64(f.dts);
    if f.configFrame then 0 else if c < -0x80_0000 then -0x80_0000 else if c >= 0x80_0000 then 0x7f_ffff else c
  }

  function VideoPayload(f: MediaFrame, body: bytes): bytes
    requires f.codec == H264 || f.codec == H265
  {
    [(if f.keyFrame || f.configFrame then 0x10 else 0x20) + (if f.codec == H264 then 7 else 12),
     if f.configFrame then 0 else 1]
    + BE24(Composition(f) % 0x100_0000) + body
  }

  function FlvPayload(f: MediaFrame): Result<bytes> {
    if f.frameType == Metadata || f.format == PayloadFormat.Flv then Ok(f.data)
    else if f.frameType == Video then
      if f.codec != H264 && f.codec != H265 then Err(Unsupported)
      else
        var body :- if f.configFrame then VideoDecoderConfig(f) else VideoSampleLengthPrefixed(f);
        Ok(VideoPayload(f, body))
    else
      match f.codec
      case AAC =>
        var body :- if f.configFrame then AacAsc(f) else AacRawPayload(f);
        Ok([0xaf, if f.configFrame then 0 else 1] + body)
      case G711A => Ok([0x72] + f.data)
      case G711U => Ok([0x82] + f.data)
      case Mp3 => Ok([0x2f] + f.data)
      case _ => Err(Unsupported)
  }

  // ---- tags ----

  /** What the reader's loop can meet: the back pointer behind the file header, or a tag. */
  datatype Unit = Gap | Tag(kind: byte, timestamp: nat, payload: bytes)

  predicate Writable(u: Unit) {
    u.Tag? ==> u.kind in {8, 9, 0x12} && |u.payload| < 0x100_0000 && u.timestamp < 0x100_0000
  }

  predicate AllWritable(us: seq<Unit>) {
    forall u :: u in us ==> Writable(u)
  }

  function Encode(u: Unit): (r: bytes)
    ensures |r| == if u.Gap? then 4 else 15 + |u.payload|
  {
    match u
    case Gap => [0, 0, 0, 0]
    case Tag(kind, timestamp, payload) =>
      [kind] + BE24(|payload|) + BE24(timestamp) + [0, 0, 0, 0] + payload + BE32(11 + |payload|)
  }

  function EncodeAll(us: seq<Unit>): bytes {
    if us == [] then [] else Encode(us[0]) + EncodeAll(us[1..])
  }

  const FLV: bytes := [0x46, 0x4c, 0x56]
  const HEADER: bytes := [0x46, 0x4c, 0x56, 1, 5, 0, 0, 0, 9]

  function KindOf(t: FrameType): byte {
    match t
    case Video => 9
    case Audio => 8
    case Metadata => 0x12
  }

  /** The tag of a frame; only the low 24 bits of its time are written. */
  function TagOf(f: MediaFrame): Result<Unit> {
    var payload :- FlvPayload(f);
    Ok(Tag(KindOf(f.frameType), f.timestamp % 0x8000_0000 % 0x100_0000, payload))
  }

  class FlvMuxer {
    var headerWritten: bool

    constructor () {
      headerWritten := false;
    }

    method WriteHeader() returns (r: bytes)
      modifies this
      ensures headerWritten && r == HEADER + Encode(Gap)
    {
      headerWritten := true;
      r := FLV + [1, 5] + BE32(9) + BE32(0);
    }

    method WriteTag(f: MediaFrame) returns (r: Result<bytes>)
      ensures r.Ok? <==> TagOf(f).Ok?
      ensures r.Ok? ==> r.value == Encode(TagOf(f).value)
    {
      hide FlvPayload, BE24, BE32;
      var kind := KindOf(f.frameType);
      var payload :- FlvPayload(f);
      var timestamp := f.timestamp % 0x8000_0000;
      var buf := [kind] + BE24(|payload|) + BE24(timestamp % 0x100_0000) + [0, 0, 0, 0];
      buf := buf + payload;
      buf := buf + BE32(11 + |payload|);
      return Ok(buf);
    }
  }

  // ---- the reader ----

  function SignedI24(n: nat): int
    requires n < 0x100_0000
  {
    if n >= 0x80_0000 then n - 0x100_0000 else n
  }

  function CompositionOf(payload: bytes): int {
    if 5 <= |payload| && payload[1] % 0x10 == 1 then SignedI24(U24(payload, 2)) else 0
  }

  function VideoFrame(timestamp: u32, payload: bytes): MediaFrame
    requires payload != []
  {
    var id := payload[0] % 0x10;
    var codec := if id == 7 then H264 else if id == 12 then H265 else Unknown(id);
    var c := CompositionOf(payload);
    MediaFrame(0, Video, codec, timestamp, if timestamp + c < 0 then 0 else timestamp + c, timestamp, payload,
               PayloadFormat.Flv, payload[0] / 0x10 == 1, 2 <= |payload| && payload[1] % 0x10 == 0)
  }

  function AudioFrame(timestamp: u32, payload: bytes): MediaFrame
    requires payload != []
  {
    var id := payload[0] / 0x10;
    var codec := if id == 10 then AAC else if id == 2 then Mp3 else if id == 7 then G711A else if id == 8 then G711U
                 else Unknown(id);
    MediaFrame(1, Audio, codec, timestamp, timestamp, timestamp, payload, PayloadFormat.Flv, false,
               codec == AAC && 2 <= |payload| && payload[1] == 0)
  }

  /** The frame of a tag; other tags and empty ones are skipped. */
  function FrameOf(kind: byte, timestamp: u32, payload: bytes): seq<MediaFrame> {
    if payload == [] then []
    else if kind == 9 then [VideoFrame(timestamp, payload)]
    else if kind == 8 then [AudioFrame(timestamp, payload)]
    else []
  }

  /** One turn of the loop of `parse_tag`: nothing to do yet, or bytes used up and perhaps a frame. */
  datatype Turn = Wait | Used(n: nat, frame: seq<MediaFrame>)

  function TurnOf(buf: bytes): (r: Turn)
    ensures r.Used? ==> 0 < r.n <= |buf| && |r.frame| <= 1
  {
    if |buf| < 15 then Wait
    else if buf[0] == 0 && buf[1] == 0 && buf[2] == 0 && buf[3] == 0 then Used(4, [])
    else
      var size := U24(buf, 1);
      var timestamp: u32 := buf[7] as int * 0x100_0000 + U24(buf, 4);
      if |buf| < 15 + size then Wait else Used(15 + size, FrameOf(buf[0], timestamp, buf[11..11 + size]))
  }

  datatype Parsed = Parsed(buf: bytes, frame: seq<MediaFrame>)

  /** What one call of `parse_tag` leaves and returns. */
  function ParseTag(buf: bytes): (r: Parsed)
    ensures r.frame != [] ==> |r.buf| < |buf|
    decreases |buf|
  {
    match TurnOf(buf)
    case Wait => Parsed(buf, [])
    case Used(n, frame) => if frame == [] then ParseTag(buf[n..]) else Parsed(buf[n..], frame)
  }

  predicate HeaderReady(buf: bytes) {
    13 <= |buf| && buf[..3] == FLV && 9 <= U32(buf, 5) <= |buf|
  }

  lemma {:induction false} TurnIs(buf: bytes)
    ensures |buf| < 15 ==> TurnOf(buf) == Wait
    ensures 15 <= |buf| && buf[..4] == [0, 0, 0, 0] ==> TurnOf(buf) == Used(4, [])
    ensures 15 <= |buf| && buf[..4] != [0, 0, 0, 0] ==>
              TurnOf(buf)
              == if |buf| < 15 + U24(buf, 1) then Wait
                 else Used(15 + U24(buf, 1), FrameOf(buf[0], buf[7] as int * 0x100_0000 + U24(buf, 4),
                                                     buf[11..11 + U24(buf, 1)]))
  {
    hide FrameOf, U24;
    assert 15 <= |buf| && buf[0] == buf[1] == buf[2] == buf[3] == 0 ==> buf[..4] == [0, 0, 0, 0];
  }

  lemma {:induction false} ParseTurn(buf: bytes)
    ensures TurnOf(buf) == Wait ==> ParseTag(buf) == Parsed(buf, [])
    ensures TurnOf(buf).Used? ==>
              var turn := TurnOf(buf);
              ParseTag(buf) == if turn.frame == [] then ParseTag(buf[turn.n..]) else Parsed(buf[turn.n..], turn.frame)
  {
    hide TurnOf;
  }

  class FlvDemuxer {
    var buffer: bytes

    constructor ()
      ensures buffer == []
    {
      buffer := [];
    }

    method Feed(data: bytes)
      modifies this
      ensures buffer == old(buffer) + data
    {
      buffer := buffer + data;
    }

    method ParseHeader() returns (r: Option<bool>)
      modifies this
      ensures r.Some? <==> HeaderReady(old(buffer))
      ensures r.Some? ==> buffer == old(buffer)[U32(old(buffer), 5)..] && r.value == (old(buffer)[4] % 2 == 1)
      ensures r.None? ==> buffer == old(buffer)
    {
      if |buffer| < 13 {
        return None;
      }
      if buffer[..3] != FLV {
        return None;
      }
      var flags := buffer[4];
      var headerSize := U32(buffer, 5);
      if headerSize < 9 || headerSize > |buffer| {
        return None;
      }
      buffer := buffer[headerSize..];
      return Some(flags % 2 == 1);
    }

    method NextFrame() returns (frame: seq<MediaFrame>)
      modifies this
      ensures buffer == ParseTag(old(buffer)).buf && frame == ParseTag(old(buffer)).frame
    {
      hide *;
      while true
        invariant ParseTag(buffer) == ParseTag(old(buffer))
        decreases |buffer|
      {
        TurnIs(buffer);
        ParseTurn(buffer);
        if |buffer| < 15 {
          return [];
        }
        var kind := buffer[0];
        if kind == 0 && buffer[1] == 0 && buffer[2] == 0 && buffer[3] == 0 {
          buffer := buffer[4..];
          continue;
        }
        var size := U24(buffer, 1);
        var timestamp := buffer[7] as int * 0x100_0000 + U24(buffer, 4);
        if |buffer| < 15 + size {
          return [];
        }
        var payload := buffer[11..11 + size];
        buffer := buffer[15 + size..];
        frame := FrameOf(kind, timestamp, payload);
        if frame != [] {
          return frame;
        }
      }
    }
  }

  // ---- draining ----

  datatype Drained = Drained(buf: bytes, frames: seq<MediaFrame>)

  /** `parse_tag` until it returns nothing. */
  function Drain(buf: bytes): Drained
    decreases |buf|
  {
    var p := ParseTag(buf);
    if p.frame == [] then Drained(p.buf, [])
    else
      var rest := Drain(p.buf);
      Drained(rest.buf, p.frame + rest.frames)
  }

  function UnitFrames(u: Unit): seq<MediaFrame>
    requires Writable(u)
  {
    if u.Gap? then [] else FrameOf(u.kind, u.timestamp, u.payload)
  }

  function FramesOf(us: seq<Unit>): seq<MediaFrame>
    requires AllWritable(us)
  {
    if us == [] then [] else UnitFrames(us[0]) + FramesOf(us[1..])
  }

  /** How much must be buffered before a unit is used up: a gap waits for room for a tag behind it. */
  function Need(u: Unit): nat {
    if u.Gap? then 15 else 15 + |u.payload|
  }

  /** The units of `us` that are used up when `n` bytes of them are buffered. */
  function Ready(us: seq<Unit>, n: nat): (k: nat)
    ensures k <= |us|
    decreases |us|
  {
    if us == [] || n < Need(us[0]) then 0 else 1 + Ready(us[1..], n - |Encode(us[0])|)
  }

  lemma {:induction false} TagFields(kind: byte, timestamp: nat, payload: bytes)
    requires Writable(Tag(kind, timestamp, payload))
    ensures var e := Encode(Tag(kind, timestamp, payload));
            && e[0] == kind && U24(e, 1) == |payload| && U24(e, 4) == timestamp && e[7] == 0
            && e[11..11 + |payload|] == payload
  {
    hide BE24, U24, BE32;
    var e := Encode(Tag(kind, timestamp, payload));
    assert At(e, 1, BE24(|payload|)) && At(e, 4, BE24(timestamp));
    U24At(e, 1, |payload|);
    U24At(e, 4, timestamp);
  }

  lemma {:induction false} SameWords(x: bytes, e: bytes)
    requires 15 <= |e| && 15 <= |x| && forall k :: 0 <= k < 15 ==> x[k] == e[k]
    ensures U24(x, 1) == U24(e, 1) && U24(x, 4) == U24(e, 4)
  {
  }

  /** A unit that is not there yet waits; one that is there is used up with its frame. */
  lemma {:induction false} TurnOfUnit(u: Unit, x: bytes, rest: bytes)
    requires Writable(u) && x <= Encode(u) + rest
    ensures |x| < Need(u) ==> TurnOf(x) == Wait
    ensures |x| >= Need(u) ==> TurnOf(x) == Used(|Encode(u)|, UnitFrames(u)) && x[|Encode(u)|..] <= rest
  {
    var e := Encode(u);
    if u.Gap? {
      assert 4 <= |x| ==> x[..4] == (e + rest)[..4] == e;
      assert 4 <= |x| ==> x[0] == x[..4][0] && x[1] == x[..4][1] && x[2] == x[..4][2] && x[3] == x[..4][3];
    } else if 15 <= |x| {
      TagFields(u.kind, u.timestamp, u.payload);
      hide Encode, FrameOf, U24;
      assert forall k :: 0 <= k < 15 ==> x[k] == e[k];
      SameWords(x, e);
      if |e| <= |x| {
        assert x[..|e|] == (e + rest)[..|e|] == e;
        assert x[11..11 + |u.payload|] == x[..|e|][11..11 + |u.payload|];
      }
    }
  }

  lemma {:induction false} DrainTurn(x: bytes)
    ensures TurnOf(x).Wait? ==> Drain(x) == Drained(x, [])
    ensures TurnOf(x).Used? ==>
              var t := TurnOf(x);
              Drain(x) == Drained(Drain(x[t.n..]).buf, t.frame + Drain(x[t.n..]).frames)
  {
    hide TurnOf;
    if TurnOf(x).Used? {
      var t := TurnOf(x);
      if t.frame == [] {
        assert ParseTag(x) == ParseTag(x[t.n..]);
        assert [] + Drain(x[t.n..]).frames == Drain(x[t.n..]).frames;
      }
    }
  }

  /** Draining a prefix of a stream uses up exactly the units that are ready. */
  lemma {:induction false} DrainPrefix(us: seq<Unit>, x: bytes)
    requires AllWritable(us) && x <= EncodeAll(us)
    ensures var k := Ready(us, |x|);
            && |EncodeAll(us[..k])| <= |x|
            && Drain(x) == Drained(x[|EncodeAll(us[..k])|..], FramesOf(us[..k]))
    decreases |us|
  {
    hide Encode, TurnOf, Drain, Writable, FrameOf, UnitFrames, EncodeAll, Ready, FramesOf, Need;
    ReadyIs(us, |x|);
    ReadyIs([], 0);
    NoFrames();
    if us == [] {
      DrainTurn(x);
      NothingTurns();
      assert us[..0] == [] && x[0..] == x;
    } else {
      var u, rest := us[0], us[1..];
      TurnOfUnit(u, x, EncodeAll(rest));
      DrainTurn(x);
      if |x| < Need(u) {
        assert us[..0] == [] && x[0..] == x;
      } else {
        var y := x[|Encode(u)|..];
        DrainPrefix(rest, y);
        var k := Ready(rest, |y|);
        TakeUnits(us, k);
        assert y[|EncodeAll(rest[..k])|..] == x[|EncodeAll(us[..k + 1])|..];
      }
    }
  }

  lemma {:induction false} NoFrames()
    ensures FramesOf([]) == []
  {
  }

  lemma {:induction false} NothingTurns()
    ensures TurnOf([]) == Wait
  {
  }

  lemma {:induction false} TakeUnits(us: seq<Unit>, k: nat)
    requires us != [] && k < |us| && AllWritable(us)
    ensures EncodeAll(us[..k + 1]) == Encode(us[0]) + EncodeAll(us[1..][..k])
    ensures FramesOf(us[..k + 1]) == UnitFrames(us[0]) + FramesOf(us[1..][..k])
  {
    hide Encode, UnitFrames;
    assert us[..k + 1][1..] == us[1..][..k] && us[..k + 1][0] == us[0];
  }

  lemma {:induction false} SplitUnits(us: seq<Unit>, k: nat)
    requires k <= |us| && AllWritable(us)
    ensures EncodeAll(us) == EncodeAll(us[..k]) + EncodeAll(us[k..])
    ensures FramesOf(us) == FramesOf(us[..k]) + FramesOf(us[k..])
    decreases k
  {
    hide Encode, UnitFrames;
    if k == 0 {
      assert us[..0] == [] && us[0..] == us;
      assert [] + EncodeAll(us) == EncodeAll(us) && [] + FramesOf(us) == FramesOf(us);
    } else {
      SplitUnits(us[1..], k - 1);
      TakeUnits(us, k - 1);
      assert us[1..][k - 1..] == us[k..];
      Assoc(Encode(us[0]), EncodeAll(us[1..][..k - 1]), EncodeAll(us[k..]));
      Assoc(UnitFrames(us[0]), FramesOf(us[1..][..k - 1]), FramesOf(us[k..]));
    }
  }

  // ---- arbitrary pieces ----

  /** Feeding pieces behind the file header, draining after each. */
  function FeedPieces(buf: bytes, pieces: seq<bytes>): Drained
    decreases |pieces|
  {
    if pieces == [] then Drained(buf, [])
    else
      var d := Drain(buf + pieces[0]);
      var rest := FeedPieces(d.buf, pieces[1..]);
      Drained(rest.buf, d.frames + rest.frames)
  }

  lemma {:induction false} FeedResumes(us: seq<Unit>, buf: bytes, pieces: seq<bytes>)
    requires AllWritable(us) && buf + Concat(pieces) == EncodeAll(us)
    requires pieces == [] ==> Drain(buf) == Drained(buf, [])
    ensures FeedPieces(buf, pieces) == Drained(Drain(EncodeAll(us)).buf, Drain(EncodeAll(us)).frames)
    decreases |pieces|
  {
    hide Encode, Drain, FrameOf, UnitFrames, FramesOf, AllWritable;
    if pieces == [] {
      assert buf + Concat(pieces) == buf;
    } else {
      var x := buf + pieces[0];
      var more := Concat(pieces[1..]);
      assert x + more == EncodeAll(us) by { Assoc(buf, pieces[0], more); }
      PiecePrefix(x, more, EncodeAll(us));
      DrainPrefix(us, x);
      var k := Ready(us, |x|);
      var n := |EncodeAll(us[..k])|;
      Suffix(us, k);
      SplitUnits(us, k);
      assert x[n..] + more == EncodeAll(us[k..]) by {
        assert (x + more)[n..] == x[n..] + more;
        assert EncodeAll(us)[n..] == EncodeAll(us[k..]);
      }
      NothingLeft(us, x);
      FeedResumes(us[k..], x[n..], pieces[1..]);
      ReadyGrows(us, |x|, |EncodeAll(us)|);
      DrainWhole(us, k);
    }
  }

  lemma {:induction false} PiecePrefix(x: bytes, more: bytes, whole: bytes)
    requires x + more == whole
    ensures x <= whole
  {
  }

  lemma {:induction false} Suffix(us: seq<Unit>, k: nat)
    requires k <= |us| && AllWritable(us)
    ensures AllWritable(us[k..]) && AllWritable(us[..k])
  {
  }

  /** What a drain leaves is drained. */
  lemma {:induction false} NothingLeft(us: seq<Unit>, x: bytes)
    requires AllWritable(us) && x <= EncodeAll(us)
    ensures var n := |EncodeAll(us[..Ready(us, |x|)])|;
            n <= |x| && Drain(x[n..]) == Drained(x[n..], [])
    decreases |us|
  {
    hide Encode, TurnOf, Drain, Writable, FrameOf, UnitFrames, EncodeAll, Ready, FramesOf, Need;
    DrainPrefix(us, x);
    ReadyIs(us, |x|);
    if us == [] {
      DrainTurn(x);
      NothingTurns();
      assert x == [] && us[..0] == [] && x[0..] == x;
    } else {
      var u, rest := us[0], us[1..];
      TurnOfUnit(u, x, EncodeAll(rest));
      DrainTurn(x);
      if |x| < Need(u) {
        ReadyIs([], 0);
        assert us[..0] == [] && x[0..] == x;
      } else {
        var y := x[|Encode(u)|..];
        NothingLeft(rest, y);
        TakeUnits(us, Ready(rest, |y|));
        assert y[|EncodeAll(rest[..Ready(rest, |y|)])|..] == x[|EncodeAll(us[..Ready(us, |x|)])|..];
      }
    }
  }

  lemma {:induction false} ReadyIs(us: seq<Unit>, n: nat)
    ensures us == [] ==> Ready(us, n) == 0 && EncodeAll(us) == []
    ensures us != [] ==> EncodeAll(us) == Encode(us[0]) + EncodeAll(us[1..])
    ensures us != [] && n < Need(us[0]) ==> Ready(us, n) == 0
    ensures us != [] && n >= Need(us[0]) ==>
              |Encode(us[0])| <= n && Ready(us, n) == 1 + Ready(us[1..], n - |Encode(us[0])|)
  {
    hide Encode;
  }

  /** Draining a whole stream at once is draining its first units and then the rest. */
  lemma {:induction false} DrainWhole(us: seq<Unit>, k: nat)
    requires AllWritable(us) && k <= |us| && k <= Ready(us, |EncodeAll(us)|)
    ensures AllWritable(us[..k]) && AllWritable(us[k..])
    ensures Drain(EncodeAll(us))
            == Drained(Drain(EncodeAll(us[k..])).buf, FramesOf(us[..k]) + Drain(EncodeAll(us[k..])).frames)
    decreases k
  {
    hide Encode, TurnOf, Drain, Writable, FrameOf, UnitFrames;
    if k == 0 {
      assert us[..0] == [] && us[0..] == us;
      assert [] + Drain(EncodeAll(us)).frames == Drain(EncodeAll(us)).frames;
    } else {
      var x := EncodeAll(us);
      TurnOfUnit(us[0], x, EncodeAll(us[1..]));
      DrainTurn(x);
      assert x[|Encode(us[0])|..] == EncodeAll(us[1..]);
      DrainWhole(us[1..], k - 1);
      TakeUnits(us, k - 1);
      assert us[1..][k - 1..] == us[k..];
      Assoc(UnitFrames(us[0]), FramesOf(us[1..][..k - 1]), Drain(EncodeAll(us[k..])).frames);
    }
  }

  lemma {:induction false} ReadyGrows(us: seq<Unit>, n: nat, m: nat)
    requires n <= m
    ensures Ready(us, n) <= Ready(us, m)
    decreases |us|
  {
    hide Encode;
    if us != [] && Need(us[0]) <= n {
      ReadyGrows(us[1..], n - |Encode(us[0])|, m - |Encode(us[0])|);
    }
  }

  /** A complete stream that ends with a tag is used up to its last byte. */
  lemma {:induction false} AllReady(us: seq<Unit>)
    requires us != [] ==> us[|us| - 1].Tag?
    ensures Ready(us, |EncodeAll(us)|) == |us|
    decreases |us|
  {
    if us != [] {
      AllReady(us[1..]);
      TagBehind(us);
    }
  }

  lemma {:induction false} TagBehind(us: seq<Unit>)
    requires us != [] && us[|us| - 1].Tag?
    ensures |EncodeAll(us)| >= Need(us[0])
  {
    if |us| > 1 {
      TagBehind(us[1..]);
    }
  }

  /** The reader's driver: the file header first, then tags, after each piece. */
  function FeedStream(buf: bytes, pieces: seq<bytes>): Drained
    decreases |pieces|
  {
    if pieces == [] then Drained(buf, [])
    else
      var x := buf + pieces[0];
      if HeaderReady(x) then
        var d := Drain(x[U32(x, 5)..]);
        var rest := FeedPieces(d.buf, pieces[1..]);
        Drained(rest.buf, d.frames + rest.frames)
      else FeedStream(x, pieces[1..])
  }

  lemma {:induction false} HeaderIsRead(x: bytes, tail: bytes)
    requires x <= HEADER + [0, 0, 0, 0] + tail
    ensures HeaderReady(x) <==> 13 <= |x|
    ensures 13 <= |x| ==> U32(x, 5) == 9
  {
    if 13 <= |x| {
      assert x[..9] == (HEADER + [0, 0, 0, 0] + tail)[..9] == HEADER;
      assert x[..3] == x[..9][..3] == FLV;
      assert x[5] == x[..9][5] && x[6] == x[..9][6] && x[7] == x[..9][7] && x[8] == x[..9][8];
    }
  }

  lemma {:induction false} FeedHeader(us: seq<Unit>, buf: bytes, pieces: seq<bytes>)
    requires AllWritable(us) && |buf| < 13 && buf + Concat(pieces) == HEADER + EncodeAll([Gap] + us)
    ensures FeedStream(buf, pieces) == Drain(EncodeAll([Gap] + us))
    decreases |pieces|
  {
    hide Encode, Drain, Ready, FrameOf, HeaderReady, U32, FeedPieces, EncodeAll;
    GapFirst(us);
    if pieces == [] {
      assert false;
    } else {
      var x := buf + pieces[0];
      var more := Concat(pieces[1..]);
      var stream := EncodeAll([Gap] + us);
      assert x + more == HEADER + stream by { Assoc(buf, pieces[0], more); }
      PiecePrefix(x, more, HEADER + stream);
      Assoc(HEADER, [0, 0, 0, 0], EncodeAll(us));
      HeaderIsRead(x, EncodeAll(us));
      if 13 <= |x| {
        var y := x[9..];
        assert y + more == stream by { assert (x + more)[9..] == y + more && (HEADER + stream)[9..] == stream; }
        FeedRest([Gap] + us, y, pieces[1..]);
      } else {
        FeedHeader(us, x, pieces[1..]);
      }
    }
  }

  lemma {:induction false} GapFirst(us: seq<Unit>)
    ensures EncodeAll([Gap] + us) == [0, 0, 0, 0] + EncodeAll(us)
    ensures AllWritable(us) ==> AllWritable([Gap] + us)
  {
    assert ([Gap] + us)[1..] == us;
  }

  /** Draining what is there and feeding the rest is draining everything. */
  lemma {:induction false} FeedRest(us: seq<Unit>, x: bytes, pieces: seq<bytes>)
    requires AllWritable(us) && x + Concat(pieces) == EncodeAll(us)
    ensures var d := Drain(x);
            var rest := FeedPieces(d.buf, pieces);
            Drained(rest.buf, d.frames + rest.frames) == Drain(EncodeAll(us))
  {
    hide Encode, Drain, Ready, FrameOf, EncodeAll, Concat;
    assert [] + x == x && ([x] + pieces)[1..] == pieces;
    assert FeedPieces([], [x] + pieces).buf == FeedPieces(Drain(x).buf, pieces).buf;
    ConcatCons(x, pieces);
    assert [] + Concat([x] + pieces) == Concat([x] + pieces);
    FeedResumes(us, [], [x] + pieces);
  }

  lemma {:induction false} ConcatCons(x: bytes, pieces: seq<bytes>)
    ensures Concat([x] + pieces) == x + Concat(pieces)
  {
    assert ([x] + pieces)[1..] == pieces;
  }

  /** Header and tags, cut in any way, give exactly the frames of the tags, in order. */
  lemma {:induction false} AnyCutRoundTrips(us: seq<Unit>, pieces: seq<bytes>)
    requires AllWritable(us) && us != [] && us[|us| - 1].Tag?
    requires Concat(pieces) == HEADER + EncodeAll([Gap] + us)
    ensures FeedStream([], pieces) == Drained([], FramesOf([Gap] + us))
    ensures FramesOf([Gap] + us) == FramesOf(us)
  {
    hide Encode, Drain, Ready, FrameOf, FeedStream, FramesOf, Concat, Writable;
    var all := [Gap] + us;
    GapFirst(us);
    assert [] + Concat(pieces) == Concat(pieces);
    FeedHeader(us, [], pieces);
    AllReady(all);
    DrainPrefix(all, EncodeAll(all));
    assert all[..|all|] == all;
    GapHasNoFrame(us);
  }

  lemma {:induction false} GapHasNoFrame(us: seq<Unit>)
    requires AllWritable(us)
    ensures AllWritable([Gap] + us) && FramesOf([Gap] + us) == FramesOf(us)
  {
    GapFirst(us);
    assert ([Gap] + us)[1..] == us;
    assert [] + FramesOf(us) == FramesOf(us);
  }

  // ---- frame by frame ----

  lemma {:induction false} VideoPayloadFields(f: MediaFrame, body: bytes)
    requires f.codec == H264 || f.codec == H265
    ensures var p := VideoPayload(f, body);
            && |p| == 5 + |body| && p[5..] == body && p[1] == (if f.configFrame then 0 else 1)
            && p[0] % 0x10 == (if f.codec == H264 then 7 else 12)
            && (p[0] / 0x10 == 1 <==> f.keyFrame || f.configFrame)
            && SignedI24(U24(p, 2)) == Composition(f)
  {
    hide BE24, U24, Composition;
    var p := VideoPayload(f, body);
    var c := Composition(f) % 0x100_0000;
    assert At(p, 2, BE24(c));
    U24At(p, 2, c);
  }

  /** The distance of the two times fits the signed 24-bit field. */
  predicate TimesFit(f: MediaFrame) {
    -0x80_0000 <= f.pts - f.dts < 0x80_0000
  }

  /** A video frame comes back with its codec, flags and length-prefixed sample, and with its times if they fit. */
  lemma {:induction false} VideoSurvives(f: MediaFrame)
    requires f.frameType == Video && f.format != PayloadFormat.Flv && FlvPayload(f).Ok?
    ensures var g := VideoFrame(f.timestamp % 0x100_0000, FlvPayload(f).value);
            && g.codec == f.codec && g.configFrame == f.configFrame && g.data == FlvPayload(f).value
            && g.timestamp == f.timestamp % 0x100_0000
            && (!f.configFrame ==> g.keyFrame == f.keyFrame)
            && (f.configFrame ==> VideoDecoderConfig(g) == VideoDecoderConfig(f) || VideoDecoderConfig(f) == Ok([]))
            && (!f.configFrame ==>
                  VideoSampleLengthPrefixed(g) == VideoSampleLengthPrefixed(f)
                  || VideoSampleLengthPrefixed(f) == Ok([]))
            && (!f.configFrame && f.timestamp == f.dts < 0x100_0000 && TimesFit(f) ==> g.dts == f.dts && g.pts == f.pts)
  {
    hide VideoPayload, Composition, U24, VideoFormat;
    var body := if f.configFrame then VideoDecoderConfig(f).value else VideoSampleLengthPrefixed(f).value;
    var p := FlvPayload(f).value;
    VideoPayloadFields(f, body);
    CompositionIs(f);
    var g := VideoFrame(f.timestamp % 0x100_0000, p);
    FlvStaysFlv(g);
  }

  lemma {:induction false} FlvStaysFlv(g: MediaFrame)
    requires g.format == PayloadFormat.Flv
    ensures VideoFormat(g) == PayloadFormat.Flv
  {
  }

  lemma {:induction false} CompositionIs(f: MediaFrame)
    ensures !f.configFrame && f.dts < 0x100_0000 && TimesFit(f) ==> Composition(f) == f.pts - f.dts
    ensures f.configFrame ==> Composition(f) == 0
  {
  }

  /** An audio frame comes back with its codec, its configuration flag and its time. */
  lemma {:induction false} AudioSurvives(f: MediaFrame)
    requires f.frameType == Audio && f.format != PayloadFormat.Flv && FlvPayload(f).Ok?
    ensures var g := AudioFrame(f.timestamp % 0x100_0000, FlvPayload(f).value);
            && g.codec == f.codec && g.data == FlvPayload(f).value && g.timestamp == f.timestamp % 0x100_0000
            && (f.codec == AAC ==> g.configFrame == f.configFrame)
            && (f.codec == AAC && !f.configFrame ==> AacRawPayload(g) == AacRawPayload(f) || AacRawPayload(f) == Ok([]))
            && (f.codec == AAC && f.configFrame ==> AacAsc(g) == AacAsc(f) || AacAsc(f) == Ok([]))
  {
    hide AscFromAdts, StripAdtsHeader;
  }

  /** Frames the writer turns into a tag the reader does not skip. */
  predicate Sendable(f: MediaFrame) {
    f.frameType != Metadata && FlvPayload(f).Ok? && 0 < |FlvPayload(f).value| < 0x100_0000
  }

  function TagsOf(fs: seq<MediaFrame>): (us: seq<Unit>)
    requires forall f :: f in fs ==> Sendable(f)
    ensures |us| == |fs| && AllWritable(us) && forall u :: u in us ==> u.Tag?
  {
    if fs == [] then []
    else
      TagIsReadBack(fs[0]);
      [TagOf(fs[0]).value] + TagsOf(fs[1..])
  }

  /** What a reader makes of the frame's tag. */
  function ReadBack(f: MediaFrame): MediaFrame
    requires Sendable(f)
  {
    if f.frameType == Video then VideoFrame(f.timestamp % 0x100_0000, FlvPayload(f).value)
    else AudioFrame(f.timestamp % 0x100_0000, FlvPayload(f).value)
  }

  lemma {:induction false} TagIsReadBack(f: MediaFrame)
    requires Sendable(f)
    ensures TagOf(f).Ok? && Writable(TagOf(f).value) && UnitFrames(TagOf(f).value) == [ReadBack(f)]
  {
    hide FlvPayload, VideoFrame, AudioFrame;
    assert f.timestamp % 0x8000_0000 % 0x100_0000 == f.timestamp % 0x100_0000;
  }

  lemma {:induction false} TagsAreReadBack(fs: seq<MediaFrame>)
    requires forall f :: f in fs ==> Sendable(f)
    ensures var gs := FramesOf(TagsOf(fs));
            |gs| == |fs| && forall i :: 0 <= i < |fs| ==> gs[i] == ReadBack(fs[i])
  {
    hide Sendable, ReadBack, TagOf, UnitFrames;
    if fs != [] {
      TagIsReadBack(fs[0]);
      TagsAreReadBack(fs[1..]);
    }
  }

  /** Any list of frames, written as header and tags and fed in any pieces, comes back frame by frame. */
  lemma {:induction false} StreamRoundTrip(fs: seq<MediaFrame>, pieces: seq<bytes>)
    requires fs != [] && forall f :: f in fs ==> Sendable(f)
    requires Concat(pieces) == HEADER + EncodeAll([Gap] + TagsOf(fs))
    ensures var out := FeedStream([], pieces);
            && out.buf == [] && |out.frames| == |fs|
            && forall i :: 0 <= i < |fs| ==> out.frames[i] == ReadBack(fs[i])
  {
    hide Sendable, ReadBack, TagsOf, FeedStream, FramesOf, EncodeAll, Concat;
    AnyCutRoundTrips(TagsOf(fs), pieces);
    TagsAreReadBack(fs);
  }
}
