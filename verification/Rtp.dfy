/** RTP packetisation (crates/core/src/rtp.rs, `RtpPacketizer`).
  *
  * Fragmentation follows section 5.8 of RFC 6184 for H.264 and section 4.4.3 of RFC 7798 for
  * H.265.
  */
module Rtp {
  import opened Bytes
  import opened Frames
  import opened NalUnits
  import opened Payload

  const MAX_MTU: nat := 0xffff - 12

  /** One packet before its header is written. */
  datatype Out = Out(marker: bool, payload: bytes)

  datatype Stream = Stream(ssrc: u32, payloadType: byte, timestamp: u32)

  function Header(s: Stream, sequence: nat, marker: bool): (r: bytes)
    requires s.payloadType < 0x80
    ensures |r| == 12
  {
    [0x80, s.payloadType + if marker then 0x80 else 0] + BE16(sequence) + BE32(s.timestamp) + BE32(s.ssrc)
  }

  /** The packets of `outs`, numbered from `sequence` on modulo 2^16. */
  function Packets(s: Stream, sequence: nat, outs: seq<Out>): (r: seq<bytes>)
    requires s.payloadType < 0x80
    ensures |r| == |outs|
  {
    seq(|outs|, i requires 0 <= i < |outs| =>
      Header(s, (sequence + i) % 0x1_0000, outs[i].marker) + outs[i].payload)
  }

  /** Milliseconds on the media clock, truncated to 32 bits. */
  function Ticks(timestampMs: u32, clockRate: u32): u32 {
    timestampMs * clockRate / 1000 % 0x1_0000_0000
  }

  // ---- what a receiver reads ----

  function Sequence(p: bytes): nat
    requires 12 <= |p|
  {
    U16(p, 2)
  }

  predicate Marker(p: bytes)
    requires 12 <= |p|
  {
    p[1] >= 0x80
  }

  /** Every header is read back as written and followed by its payload. */
  lemma {:induction false} PacketsCarry(s: Stream, sequence: nat, outs: seq<Out>, i: nat)
    requires s.payloadType < 0x80 && i < |outs|
    ensures var p := Packets(s, sequence, outs)[i];
            && 12 <= |p| && Sequence(p) == (sequence + i) % 0x1_0000 && Marker(p) == outs[i].marker
            && p[1] % 0x80 == s.payloadType && U32(p, 4) == s.timestamp && U32(p, 8) == s.ssrc
            && p[12..] == outs[i].payload
  {
    var n := (sequence + i) % 0x1_0000;
    var h := Header(s, n, outs[i].marker);
    var p := h + outs[i].payload;
    HeaderFields(s, n, outs[i].marker);
    hide Header, BE16, BE32;
    assert p[..12] == h && p[12..] == outs[i].payload;
    assert p[1] == h[1] && p[2] == h[2] && p[3] == h[3];
    assert forall k :: 4 <= k < 12 ==> p[k] == h[k];
  }

  lemma {:induction false} HeaderFields(s: Stream, n: nat, marker: bool)
    requires s.payloadType < 0x80 && n < 0x1_0000
    ensures var h := Header(s, n, marker);
            && U16(h, 2) == n && U32(h, 4) == s.timestamp && U32(h, 8) == s.ssrc
            && h[1] % 0x80 == s.payloadType && (h[1] >= 0x80 <==> marker)
  {
    hide BE16, BE32, U16, U32;
    var h := Header(s, n, marker);
    assert At(h, 2, BE16(n)) && At(h, 4, BE32(s.timestamp)) && At(h, 8, BE32(s.ssrc));
    U16At(h, 2, n);
    U32At(h, 4, s.timestamp);
    U32At(h, 8, s.ssrc);
  }

  lemma {:induction false} PacketsAppend(s: Stream, sequence: nat, a: seq<Out>, b: seq<Out>)
    requires s.payloadType < 0x80
    ensures Packets(s, sequence, a + b) == Packets(s, sequence, a) + Packets(s, sequence + |a|, b)
  {
    hide Header;
  }

  lemma {:induction false} PacketsWrap(s: Stream, sequence: nat, a: seq<Out>)
    requires s.payloadType < 0x80
    ensures Packets(s, sequence % 0x1_0000, a) == Packets(s, sequence, a)
  {
    hide Header;
    forall i | 0 <= i < |a|
      ensures Packets(s, sequence % 0x1_0000, a)[i] == Packets(s, sequence, a)[i]
    {
      WrapAdd(sequence, i);
    }
  }

  lemma {:induction false} OnePacket(s: Stream, sequence: nat, out: Out)
    requires s.payloadType < 0x80 && sequence < 0x1_0000
    ensures Packets(s, sequence, [out]) == [Header(s, sequence, out.marker) + out.payload]
  {
    hide Header;
  }

  lemma {:induction false} WrapAdd(a: nat, k: nat)
    ensures (a % 0x1_0000 + k) % 0x1_0000 == (a + k) % 0x1_0000
  {
    var r := a % 0x1_0000 + k;
    DivMod(0x1_0000, a / 0x1_0000 + r / 0x1_0000, r % 0x1_0000);
  }

  lemma {:induction false} PacketsMore(s: Stream, sequence: nat, done: seq<Out>, more: seq<Out>)
    requires s.payloadType < 0x80
    ensures Packets(s, sequence, done + more)
            == Packets(s, sequence, done) + Packets(s, (sequence + |done|) % 0x1_0000, more)
    ensures ((sequence + |done|) % 0x1_0000 + |more|) % 0x1_0000 == (sequence + |done + more|) % 0x1_0000
  {
    hide Packets;
    PacketsAppend(s, sequence, done, more);
    PacketsWrap(s, sequence + |done|, more);
    WrapAdd(sequence + |done|, |more|);
  }

  // ---- muxed payloads ----

  /** The marker goes on the last payload of an access unit. */
  function Marked(payloads: seq<bytes>, last: bool): (r: seq<Out>)
    ensures |r| == |payloads|
    ensures forall i :: 0 <= i < |r| ==> r[i] == Out(last && i == |r| - 1, payloads[i])
  {
    seq(|payloads|, i requires 0 <= i < |payloads| => Out(last && i == |payloads| - 1, payloads[i]))
  }

  // ---- fragmentation ----

  datatype Video = Avc | Hevc

  function HeaderLen(c: Video): nat {
    if c == Avc then 1 else 2
  }

  function NalType(c: Video, n: bytes): nat
    requires n != []
  {
    if c == Avc then n[0] % 0x20 else n[0] / 2 % 0x40
  }

  function FuType(c: Video): nat {
    if c == Avc then 28 else 49
  }

  /** The NAL header with the fragmentation type in place of its own. */
  function FuLead(c: Video, n: bytes): (r: bytes)
    requires HeaderLen(c) <= |n|
    ensures |r| == HeaderLen(c)
  {
    if c == Avc then [n[0] / 0x20 * 0x20 + 28] else [n[0] / 0x80 * 0x80 + 98 + n[0] % 2, n[1]]
  }

  function FuPayload(c: Video, n: bytes, off: nat, chunk: nat): (r: bytes)
    requires HeaderLen(c) <= off && off + chunk <= |n|
    ensures |r| == HeaderLen(c) + 1 + chunk
  {
    var flags := (if off == HeaderLen(c) then 0x80 else 0) + (if off + chunk == |n| then 0x40 else 0);
    FuLead(c, n) + [NalType(c, n) + flags] + n[off..off + chunk]
  }

  function ChunkLen(c: Video, n: bytes, off: nat, mtu: nat): (r: nat)
    requires off < |n| && HeaderLen(c) + 1 < mtu
    ensures 0 < r && off + r <= |n|
  {
    var most := mtu - HeaderLen(c) - 1;
    if most < |n| - off then most else |n| - off
  }

  function Fragments(c: Video, n: bytes, off: nat, mtu: nat): (r: seq<bytes>)
    requires HeaderLen(c) <= off <= |n| && HeaderLen(c) + 1 < mtu
    decreases |n| - off
  {
    if off == |n| then []
    else
      var chunk := ChunkLen(c, n, off, mtu);
      [FuPayload(c, n, off, chunk)] + Fragments(c, n, off + chunk, mtu)
  }

  /** What the fragmentation loop needs to make progress. */
  predicate Splittable(c: Video, n: bytes, mtu: nat) {
    |n| <= mtu || HeaderLen(c) + 1 < mtu
  }

  /** Units shorter than their header are dropped. */
  predicate Kept(c: Video, n: bytes) {
    HeaderLen(c) <= |n|
  }

  function NalPayloads(c: Video, n: bytes, mtu: nat): (r: seq<bytes>)
    requires Splittable(c, n, mtu)
  {
    if !Kept(c, n) then []
    else if |n| <= mtu then [n]
    else Fragments(c, n, HeaderLen(c), mtu)
  }

  /** The packets of one access unit. */
  function AccessUnit(c: Video, ns: seq<bytes>, mtu: nat): (r: seq<Out>)
    requires forall n :: n in ns ==> Splittable(c, n, mtu)
  {
    if ns == [] then []
    else Marked(NalPayloads(c, ns[0], mtu), |ns| == 1) + AccessUnit(c, ns[1..], mtu)
  }

  // ---- when the fragmentation loop ends ----

  /** The offset after one turn of the loop; none if the room for a fragment underflows. */
  function Turn(c: Video, n: bytes, off: nat, mtu: nat): (r: Option<nat>)
    requires off <= |n|
    ensures r.Some? ==> off <= r.value <= |n|
  {
    if mtu < HeaderLen(c) + 1 then None else Some(off + Min(mtu - HeaderLen(c) - 1, |n| - off))
  }

  /** The offset after `k` turns, the loop stopping at the end of the unit. */
  function OffsetAfter(c: Video, n: bytes, mtu: nat, k: nat): (r: Option<nat>)
    requires HeaderLen(c) <= |n|
    ensures r.Some? ==> HeaderLen(c) <= r.value <= |n|
  {
    if k == 0 then Some(HeaderLen(c))
    else
      var before := OffsetAfter(c, n, mtu, k - 1);
      if before.None? || before.value == |n| then before else Turn(c, n, before.value, mtu)
  }

  lemma {:induction false} OffsetGrows(c: Video, n: bytes, mtu: nat, k: nat)
    requires HeaderLen(c) <= |n| && HeaderLen(c) + 1 < mtu
    ensures var r := OffsetAfter(c, n, mtu, k);
            r.Some? && (r.value == |n| || HeaderLen(c) + k <= r.value)
  {
    if k > 0 {
      OffsetGrows(c, n, mtu, k - 1);
    }
  }

  lemma {:induction false} OffsetStalls(c: Video, n: bytes, mtu: nat, k: nat)
    requires HeaderLen(c) < |n| && mtu <= HeaderLen(c) + 1
    ensures OffsetAfter(c, n, mtu, k) != Some(|n|)
    ensures OffsetAfter(c, n, mtu, k) in {None, Some(HeaderLen(c))}
  {
    if k > 0 {
      OffsetStalls(c, n, mtu, k - 1);
    }
  }

  /** The loop reaches the end of a unit if and only if there is room for a fragment or nothing behind the header. */
  lemma {:induction false} FragmentationEnds(c: Video, n: bytes, mtu: nat)
    requires Kept(c, n)
    ensures (exists k: nat :: OffsetAfter(c, n, mtu, k) == Some(|n|)) <==> HeaderLen(c) + 1 < mtu || |n| == HeaderLen(c)
  {
    if |n| == HeaderLen(c) {
      assert OffsetAfter(c, n, mtu, 0) == Some(|n|);
    } else if HeaderLen(c) + 1 < mtu {
      OffsetGrows(c, n, mtu, |n|);
      assert OffsetAfter(c, n, mtu, |n|) == Some(|n|);
    } else {
      forall k: nat
        ensures OffsetAfter(c, n, mtu, k) != Some(|n|)
      {
        OffsetStalls(c, n, mtu, k);
      }
    }
  }

  /** With a payload limit of two bytes the loop over this unit never moves. */
  lemma {:induction false} FragmentationCanStall(k: nat)
    ensures OffsetAfter(Avc, [0x65, 0x88, 0x84], 2, k) == Some(1)
  {
    if k > 0 {
      FragmentationCanStall(k - 1);
    }
  }

  /** The payload of one H.264 fragment, as the loop of `packetize_h264_nalu` builds it. */
  method FragmentH264(nalu: bytes, offset: nat, chunk: nat, first: bool, end: bool) returns (payload: bytes)
    requires 1 <= offset && offset + chunk <= |nalu| && first == (offset == 1) && end == (offset + chunk == |nalu|)
    ensures payload == FuPayload(Avc, nalu, offset, chunk)
  {
    hide FuPayload;
    var fuIndicator := nalu[0] / 0x20 * 0x20 + 28;
    var nalType := nalu[0] % 0x20;
    var fuHeader := nalType + (if first then 0x80 else 0) + (if end then 0x40 else 0);
    FuPayloadIsAvc(nalu, offset, chunk);
    return [fuIndicator, fuHeader] + nalu[offset..offset + chunk];
  }

  method FragmentH265(nalu: bytes, offset: nat, chunk: nat, first: bool, end: bool) returns (payload: bytes)
    requires 2 <= offset && offset + chunk <= |nalu| && first == (offset == 2) && end == (offset + chunk == |nalu|)
    ensures payload == FuPayload(Hevc, nalu, offset, chunk)
  {
    hide FuPayload;
    var nalType := nalu[0] / 2 % 0x40;
    var payloadHeader0 := nalu[0] / 0x80 * 0x80 + 98 + nalu[0] % 2;
    var fuHeader := nalType + (if first then 0x80 else 0) + (if end then 0x40 else 0);
    FuPayloadIsHevc(nalu, offset, chunk);
    return [payloadHeader0, nalu[1], fuHeader] + nalu[offset..offset + chunk];
  }

  class RtpPacketizer {
    const ssrc: u32
    const payloadType: byte
    const clockRate: u32
    const mtu: nat
    var sequence: nat

    ghost predicate Valid()
      reads this
    {
      payloadType < 0x80 && 0 < mtu <= MAX_MTU && sequence < 0x1_0000
    }

    /** `new`, `with_sequence` and `with_payload_mtu` together. */
    constructor (ssrc: u32, payloadType: byte, clockRate: u32, sequence: nat, mtu: nat)
      requires sequence < 0x1_0000
      ensures Valid() && this.ssrc == ssrc && this.sequence == sequence
      ensures this.payloadType == payloadType % 0x80
      ensures this.clockRate == if clockRate == 0 then 1 else clockRate
      ensures this.mtu == if mtu < 1 then 1 else if mtu > MAX_MTU then MAX_MTU else mtu
    {
      this.ssrc := ssrc;
      this.payloadType := payloadType % 0x80;
      this.clockRate := if clockRate == 0 then 1 else clockRate;
      this.sequence := sequence;
      this.mtu := if mtu < 1 then 1 else if mtu > MAX_MTU then MAX_MTU else mtu;
    }

    function StreamAt(timestamp: u32): Stream {
      Stream(ssrc, payloadType, timestamp)
    }

    function Timestamp(timestampMs: u32): u32 {
      Ticks(timestampMs, clockRate)
    }

    /** Appends one packet and advances the sequence number. */
    method Send(out: Out, timestamp: u32, packets: seq<bytes>) returns (r: seq<bytes>)
      requires Valid()
      modifies this`sequence
      ensures Valid() && sequence == (old(sequence) + 1) % 0x1_0000
      ensures r == packets + Packets(StreamAt(timestamp), old(sequence), [out])
    {
      hide Packets, Header;
      OnePacket(StreamAt(timestamp), sequence, out);
      var header := Header(StreamAt(timestamp), sequence, out.marker);
      sequence := (sequence + 1) % 0x1_0000;
      r := packets + [header + out.payload];
    }

    method PacketizePayload(payload: bytes, timestampMs: u32) returns (packets: seq<bytes>)
      requires Valid()
      modifies this`sequence
      ensures Valid() && sequence == (old(sequence) + |packets|) % 0x1_0000
      ensures packets == Packets(StreamAt(Timestamp(timestampMs)), old(sequence), Marked(Chunks(payload, mtu), true))
    {
      hide Packets, Chunks, Marked, Ticks, Header;
      var timestamp := Timestamp(timestampMs);
      var chunks := Chunks(payload, mtu);
      ghost var s := StreamAt(timestamp);
      packets := [];
      hide SentSome;
      SentNone(s, old(sequence), chunks);
      var i := 0;
      while i < |chunks|
        invariant i <= |chunks| && Valid() && sequence == (old(sequence) + i) % 0x1_0000
        invariant SentSome(s, old(sequence), chunks, i, packets)
      {
        SentNext(s, old(sequence), chunks, i, packets);
        WrapAdd(old(sequence) + i, 1);
        packets := Send(Out(i + 1 == |chunks|, chunks[i]), timestamp, packets);
        i := i + 1;
      }
      SentEvery(s, old(sequence), chunks, packets);
    }

    method PacketizeH264Nalu(nalu: bytes, timestamp: u32, lastNalu: bool, sent: seq<bytes>)
      returns (packets: seq<bytes>)
      requires Valid() && Splittable(Avc, nalu, mtu)
      modifies this`sequence
      ensures Valid() && sequence == (old(sequence) + |NalPayloads(Avc, nalu, mtu)|) % 0x1_0000
      ensures packets
              == sent + Packets(StreamAt(timestamp), old(sequence), Marked(NalPayloads(Avc, nalu, mtu), lastNalu))
    {
      hide Packets, Fragments, Sent, FuPayload, Marked, Header;
      ghost var job := Job(Avc, nalu, mtu, StreamAt(timestamp), old(sequence), lastNalu, sent);
      OnePayload(job);
      packets := sent;
      if |nalu| < 1 {
        return;
      }
      if |nalu| <= mtu {
        packets := Send(Out(lastNalu, nalu), timestamp, packets);
        return;
      }
      var offset := 1;
      var first := true;
      ghost var i := 0;
      SentNothing(job);
      while offset < |nalu|
        invariant 1 <= offset <= |nalu| && Valid() && first == (offset == 1)
        invariant sequence == (old(sequence) + i) % 0x1_0000
        invariant Sent(job, offset, i, packets)
      {
        var chunk := if mtu - 2 < |nalu| - offset then mtu - 2 else |nalu| - offset;
        var end := offset + chunk == |nalu|;
        var payload := FragmentH264(nalu, offset, chunk, first, end);
        SentFragment(job, offset, i, packets, chunk);
        WrapAdd(old(sequence) + i, 1);
        packets := Send(Out(lastNalu && end, payload), timestamp, packets);
        offset := offset + chunk;
        first := false;
        i := i + 1;
      }
      SentAll(job, i, packets);
    }

    method PacketizeH265Nalu(nalu: bytes, timestamp: u32, lastNalu: bool, sent: seq<bytes>)
      returns (packets: seq<bytes>)
      requires Valid() && Splittable(Hevc, nalu, mtu)
      modifies this`sequence
      ensures Valid() && sequence == (old(sequence) + |NalPayloads(Hevc, nalu, mtu)|) % 0x1_0000
      ensures packets
              == sent + Packets(StreamAt(timestamp), old(sequence), Marked(NalPayloads(Hevc, nalu, mtu), lastNalu))
    {
      hide Packets, Fragments, Sent, FuPayload, Marked, Header;
      ghost var job := Job(Hevc, nalu, mtu, StreamAt(timestamp), old(sequence), lastNalu, sent);
      OnePayload(job);
      packets := sent;
      if |nalu| < 2 {
        return;
      }
      if |nalu| <= mtu {
        packets := Send(Out(lastNalu, nalu), timestamp, packets);
        return;
      }
      var offset := 2;
      var first := true;
      ghost var i := 0;
      SentNothing(job);
      while offset < |nalu|
        invariant 2 <= offset <= |nalu| && Valid() && first == (offset == 2)
        invariant sequence == (old(sequence) + i) % 0x1_0000
        invariant Sent(job, offset, i, packets)
      {
        var chunk := if mtu - 3 < |nalu| - offset then mtu - 3 else |nalu| - offset;
        var end := offset + chunk == |nalu|;
        var payload := FragmentH265(nalu, offset, chunk, first, end);
        SentFragment(job, offset, i, packets, chunk);
        WrapAdd(old(sequence) + i, 1);
        packets := Send(Out(lastNalu && end, payload), timestamp, packets);
        offset := offset + chunk;
        first := false;
        i := i + 1;
      }
      SentAll(job, i, packets);
    }

    method PacketizeNalus(c: Video, nalus: seq<bytes>, timestamp: u32) returns (packets: seq<bytes>)
      requires Valid() && forall n :: n in nalus ==> Splittable(c, n, mtu)
      modifies this`sequence
      ensures Valid() && sequence == (old(sequence) + |packets|) % 0x1_0000
      ensures packets == Packets(StreamAt(timestamp), old(sequence), AccessUnit(c, nalus, mtu))
    {
      hide Packets, AccessUnit, Marked, NalPayloads, Splittable;
      ghost var s := StreamAt(timestamp);
      ghost var outs := AccessUnit(c, nalus, mtu);
      ghost var done: seq<Out> := [];
      packets := [];
      NothingSent(s, old(sequence), done);
      assert nalus[0..] == nalus && [] + outs == outs;
      var k := 0;
      while k < |nalus|
        invariant k <= |nalus| && Valid() && sequence == (old(sequence) + |done|) % 0x1_0000
        invariant packets == Packets(s, old(sequence), done)
        invariant outs == done + AccessUnit(c, nalus[k..], mtu)
      {
        assert nalus[k..][1..] == nalus[k + 1..] && nalus[k] in nalus;
        AccessUnitStep(c, nalus[k..], mtu);
        ghost var more := Marked(NalPayloads(c, nalus[k], mtu), k + 1 == |nalus|);
        Assoc(done, more, AccessUnit(c, nalus[k + 1..], mtu));
        PacketsMore(s, old(sequence), done, more);
        if c == Avc {
          packets := PacketizeH264Nalu(nalus[k], timestamp, k + 1 == |nalus|, packets);
        } else {
          packets := PacketizeH265Nalu(nalus[k], timestamp, k + 1 == |nalus|, packets);
        }
        done := done + more;
        k := k + 1;
      }
      AccessUnitEnd(c, nalus[k..], mtu);
      assert outs == done;
    }

    /** The packets of one video frame; a frame that cannot be converted sends nothing. */
    method PacketizeVideo(f: MediaFrame) returns (r: Result<seq<bytes>>)
      requires Valid()
      requires f.codec == H264 || f.codec == H265 ==> CanSplit(f, mtu)
      modifies this`sequence
      ensures Valid()
      ensures r.Ok? <==> f.codec in {H264, H265} && AnnexBUnits(f).Ok?
      ensures r.Err? ==> sequence == old(sequence)
      ensures r.Ok? ==>
        var outs := AccessUnit(VideoOf(f), Nals(AnnexBUnits(f).value), mtu);
        && r.value == Packets(StreamAt(Timestamp(f.timestamp)), old(sequence), outs)
        && sequence == (old(sequence) + |outs|) % 0x1_0000
    {
      hide Packets, AccessUnit, Nals, AnnexBUnits, Ticks, Splittable;
      if f.codec != H264 && f.codec != H265 {
        return Err(Unsupported);
      }
      var annexB :- AnnexBUnits(f);
      var nalus := AnnexBNalus(annexB);
      var packets := PacketizeNalus(VideoOf(f), nalus, Timestamp(f.timestamp));
      return Ok(packets);
    }

    /** `packetize`: a frame of either kind, or nothing for metadata. */
    method Packetize(f: MediaFrame) returns (r: Result<seq<bytes>>)
      requires Valid() && Sendable(f, mtu)
      modifies this`sequence
      ensures Valid() && (r.Ok? <==> Converts(f))
      ensures sequence == (old(sequence) + |FrameOuts(f, mtu)|) % 0x1_0000
      ensures (if r.Ok? then r.value else [])
              == Packets(StreamAt(Timestamp(f.timestamp)), old(sequence), FrameOuts(f, mtu))
    {
      hide Packets, AccessUnit, Nals, AnnexBUnits, Ticks, Splittable, AudioPayload;
      NothingSent(StreamAt(Timestamp(f.timestamp)), sequence, []);
      AccessUnitEnd(VideoOf(f), [], mtu);
      match f.frameType {
        case Video => r := PacketizeVideo(f);
        case Audio => r := PacketizeAudio(f);
        case Metadata => r := Ok([]);
      }
    }

    /** At most one packet, always marked. */
    method PacketizeAudio(f: MediaFrame) returns (r: Result<seq<bytes>>)
      requires Valid()
      modifies this`sequence
      ensures Valid() && (r.Ok? <==> AudioPayload(f).Ok?)
      ensures r.Err? ==> sequence == old(sequence)
      ensures r.Ok? ==>
        var outs := if AudioPayload(f).value == [] then [] else [Out(true, AudioPayload(f).value)];
        && r.value == Packets(StreamAt(Timestamp(f.timestamp)), old(sequence), outs)
        && sequence == (old(sequence) + |outs|) % 0x1_0000
    {
      hide Packets, Ticks, AacRawPayload, RawAudioPayload;
      NothingSent(StreamAt(Timestamp(f.timestamp)), sequence, []);
      if f.configFrame {
        return Ok([]);
      }
      var payload: bytes, aac, mpegAudio := [], false, false;
      match f.codec {
        case AAC =>
          payload :- AacRawPayload(f);
          aac := true;
        case Opus => payload := RawAudioPayload(f);
        case G711A => payload := RawAudioPayload(f);
        case G711U => payload := RawAudioPayload(f);
        case L16 => payload := RawAudioPayload(f);
        case Mp3 =>
          payload := RawAudioPayload(f);
          mpegAudio := true;
        case MP2A =>
          payload := RawAudioPayload(f);
          mpegAudio := true;
        case _ => return Err(Unsupported);
      }
      if payload == [] {
        return Ok([]);
      }
      var body := if aac then BE16(16) + BE16(|payload| * 8) + payload
                  else if mpegAudio then [0, 0, 0, 0] + payload else payload;
      var packets := Send(Out(true, body), Timestamp(f.timestamp), []);
      assert [] + Packets(StreamAt(Timestamp(f.timestamp)), old(sequence), [Out(true, body)]) == packets;
      return Ok(packets);
    }
  }

  /** The RTP payload of an audio frame, or none; AAC carries one access unit header (section 3.3.6 of RFC 3640),
    * MPEG audio four zero bytes (section 3.5 of RFC 2250). */
  function AudioPayload(f: MediaFrame): Result<bytes> {
    if f.configFrame then Ok([])
    else
      match f.codec
      case AAC =>
        var raw :- AacRawPayload(f);
        Ok(if raw == [] then [] else BE16(16) + BE16(|raw| * 8) + raw)
      case Mp3 => Ok(if RawAudioPayload(f) == [] then [] else [0, 0, 0, 0] + RawAudioPayload(f))
      case MP2A => Ok(if RawAudioPayload(f) == [] then [] else [0, 0, 0, 0] + RawAudioPayload(f))
      case Opus => Ok(RawAudioPayload(f))
      case G711A => Ok(RawAudioPayload(f))
      case G711U => Ok(RawAudioPayload(f))
      case L16 => Ok(RawAudioPayload(f))
      case _ => Err(Unsupported)
  }

  /** The 13-bit size in the access unit header is the size of the unit exactly below 8192 bytes. */
  lemma {:induction false} AacUnitSize(raw: bytes)
    ensures var p := BE16(16) + BE16(|raw| * 8) + raw;
            U16(p, 2) / 8 == |raw| <==> |raw| < 0x2000
  {
    var n := |raw|;
    var p := BE16(16) + BE16(n * 8) + raw;
    assert p[2] == n * 8 / 0x100 % 0x100 && p[3] == n * 8 % 0x100;
    EightTimes(n);
  }

  /** A frame of 8192 bytes announces a unit of size zero. */
  lemma {:induction false} AacUnitSizeCanWrap()
    ensures var f := MediaFrame(2, Audio, AAC, 0, 0, 0, seq(0x2000, i => 0), AacRaw, false, false);
            AudioPayload(f).Ok? && 4 < |AudioPayload(f).value| && U16(AudioPayload(f).value, 2) / 8 == 0
  {
    var raw: bytes := seq(0x2000, i => 0);
    var f := MediaFrame(2, Audio, AAC, 0, 0, 0, raw, AacRaw, false, false);
    EightTimes(|raw|);
  }

  lemma {:induction false} EightTimes(n: nat)
    ensures (0x100 * (n * 8 / 0x100 % 0x100) + n * 8 % 0x100) / 8 == n % 0x2000
  {
    LowWord(n * 8);
    var q, r := n / 0x2000, n % 0x2000;
    AddWords(q, 8 * r);
  }

  lemma {:induction false} AddWords(q: nat, r: nat)
    requires r < 0x1_0000
    ensures (0x1_0000 * q + r) % 0x1_0000 == r
  {
  }

  function VideoOf(f: MediaFrame): Video {
    if f.codec == H264 then Avc else Hevc
  }

  /** Every unit of the frame fits one packet, or the packet has room for a fragment. */
  ghost predicate CanSplit(f: MediaFrame, mtu: nat) {
    AnnexBUnits(f).Ok? ==> forall n :: n in Nals(AnnexBUnits(f).value) ==> Splittable(VideoOf(f), n, mtu)
  }

  /** What `packetize` demands: video units fit a packet or can be split. */
  ghost predicate Sendable(f: MediaFrame, mtu: nat) {
    f.frameType == Video && (f.codec == H264 || f.codec == H265) ==> CanSplit(f, mtu)
  }

  predicate Converts(f: MediaFrame) {
    match f.frameType
    case Video => f.codec in {H264, H265} && AnnexBUnits(f).Ok?
    case Audio => AudioPayload(f).Ok?
    case Metadata => true
  }

  /** The NAL units of a video frame; none if it cannot be converted. */
  function UnitsOf(f: MediaFrame): seq<bytes> {
    if f.frameType == Video && Converts(f) then Nals(AnnexBUnits(f).value) else []
  }

  /** What one frame sends; a frame that cannot be converted sends nothing. */
  function FrameOuts(f: MediaFrame, mtu: nat): seq<Out>
    requires Sendable(f, mtu)
  {
    if f.frameType == Video then AccessUnit(VideoOf(f), UnitsOf(f), mtu)
    else if f.frameType == Audio && AudioPayload(f).Ok? && AudioPayload(f).value != []
    then [Out(true, AudioPayload(f).value)] else []
  }

  lemma {:induction false} NothingSent(s: Stream, sequence: nat, outs: seq<Out>)
    requires s.payloadType < 0x80
    ensures outs[..0] == [] && Packets(s, sequence, []) == []
  {
  }

  lemma {:induction false} SendExtends(s: Stream, sequence: nat, outs: seq<Out>, i: nat)
    requires s.payloadType < 0x80 && i < |outs|
    ensures Packets(s, sequence, outs[..i + 1])
            == Packets(s, sequence, outs[..i]) + Packets(s, (sequence + i) % 0x1_0000, [outs[i]])
  {
    hide Packets;
    assert outs[..i + 1] == outs[..i] + [outs[i]];
    PacketsAppend(s, sequence, outs[..i], [outs[i]]);
    PacketsWrap(s, sequence + i, [outs[i]]);
  }

  /** The first `i` chunks have been sent. */
  ghost predicate SentSome(s: Stream, sequence: nat, chunks: seq<bytes>, i: nat, packets: seq<bytes>)
    requires s.payloadType < 0x80
  {
    i <= |chunks| && packets == Packets(s, sequence, Marked(chunks, true)[..i])
  }

  lemma {:induction false} SentNone(s: Stream, sequence: nat, chunks: seq<bytes>)
    requires s.payloadType < 0x80
    ensures SentSome(s, sequence, chunks, 0, [])
  {
    hide Packets, Marked;
    NothingSent(s, sequence, Marked(chunks, true));
  }

  lemma {:induction false} SentNext(s: Stream, sequence: nat, chunks: seq<bytes>, i: nat, packets: seq<bytes>)
    requires s.payloadType < 0x80 && i < |chunks| && SentSome(s, sequence, chunks, i, packets)
    ensures SentSome(s, sequence, chunks, i + 1,
                     packets + Packets(s, (sequence + i) % 0x1_0000, [Out(i + 1 == |chunks|, chunks[i])]))
  {
    hide Packets;
    SendExtends(s, sequence, Marked(chunks, true), i);
  }

  lemma {:induction false} SentEvery(s: Stream, sequence: nat, chunks: seq<bytes>, packets: seq<bytes>)
    requires s.payloadType < 0x80 && SentSome(s, sequence, chunks, |chunks|, packets)
    ensures packets == Packets(s, sequence, Marked(chunks, true)) && |packets| == |chunks|
  {
    hide Packets;
    assert Marked(chunks, true)[..|chunks|] == Marked(chunks, true);
  }

  lemma {:induction false} FuPayloadIsAvc(n: bytes, off: nat, chunk: nat)
    requires 1 <= off && off + chunk <= |n|
    ensures FuPayload(Avc, n, off, chunk)
            == [n[0] / 0x20 * 0x20 + 28,
                n[0] % 0x20 + (if off == 1 then 0x80 else 0) + (if off + chunk == |n| then 0x40 else 0)]
               + n[off..off + chunk]
  {
  }

  lemma {:induction false} FuPayloadIsHevc(n: bytes, off: nat, chunk: nat)
    requires 2 <= off && off + chunk <= |n|
    ensures FuPayload(Hevc, n, off, chunk)
            == [n[0] / 0x80 * 0x80 + 98 + n[0] % 2, n[1],
                n[0] / 2 % 0x40 + (if off == 2 then 0x80 else 0) + (if off + chunk == |n| then 0x40 else 0)]
               + n[off..off + chunk]
  {
  }

  /** One unit being fragmented behind the packets already `sent`. */
  datatype Job = Job(c: Video, n: bytes, mtu: nat, s: Stream, sequence: nat, last: bool, sent: seq<bytes>) {
    predicate Ok() {
      s.payloadType < 0x80 && Splittable(c, n, mtu)
    }

    predicate Long() {
      Ok() && mtu < |n| && Kept(c, n)
    }

    ghost function All(): seq<bytes>
      requires Ok()
    {
      NalPayloads(c, n, mtu)
    }
  }

  /** The first `i` fragments, which end at `off`, have been sent. */
  ghost predicate Sent(j: Job, off: nat, i: nat, packets: seq<bytes>)
    requires j.Long()
  {
    && HeaderLen(j.c) <= off <= |j.n| && i <= |j.All()|
    && j.All()[i..] == Fragments(j.c, j.n, off, j.mtu)
    && packets == j.sent + Packets(j.s, j.sequence, Marked(j.All(), j.last)[..i])
  }

  lemma {:induction false} OnePayload(j: Job)
    requires j.Ok()
    ensures !Kept(j.c, j.n) ==> j.sent == j.sent + Packets(j.s, j.sequence, Marked(j.All(), j.last))
    ensures Kept(j.c, j.n) && |j.n| <= j.mtu ==> Marked(j.All(), j.last) == [Out(j.last, j.n)]
  {
    hide Fragments;
  }

  lemma {:induction false} SentNothing(j: Job)
    requires j.Long()
    ensures Sent(j, HeaderLen(j.c), 0, j.sent)
  {
    hide Fragments, Marked;
    NothingSent(j.s, j.sequence, Marked(j.All(), j.last));
  }

  lemma {:induction false} SentOne(j: Job, off: nat, i: nat, packets: seq<bytes>)
    requires j.Long() && Sent(j, off, i, packets) && off < |j.n|
    ensures var chunk := ChunkLen(j.c, j.n, off, j.mtu);
            var out := Out(j.last && off + chunk == |j.n|, FuPayload(j.c, j.n, off, chunk));
            Sent(j, off + chunk, i + 1, packets + Packets(j.s, (j.sequence + i) % 0x1_0000, [out]))
  {
    hide FuPayload, Packets, NalPayloads;
    var chunk := ChunkLen(j.c, j.n, off, j.mtu);
    var rest := Fragments(j.c, j.n, off + chunk, j.mtu);
    FragmentsStep(j.c, j.n, off, j.mtu);
    hide Fragments;
    TakeOne(j.All(), i, FuPayload(j.c, j.n, off, chunk), rest);
    var outs := Marked(j.All(), j.last);
    SendExtends(j.s, j.sequence, outs, i);
    Assoc(j.sent, Packets(j.s, j.sequence, outs[..i]), Packets(j.s, (j.sequence + i) % 0x1_0000, [outs[i]]));
  }

  lemma {:induction false} SentFragment(j: Job, off: nat, i: nat, packets: seq<bytes>, chunk: nat)
    requires j.Long() && Sent(j, off, i, packets) && off < |j.n| && HeaderLen(j.c) + 1 < j.mtu
    requires chunk == Min(j.mtu - HeaderLen(j.c) - 1, |j.n| - off)
    ensures HeaderLen(j.c) <= off && 0 < chunk && off + chunk <= |j.n|
    ensures Sent(j, off + chunk, i + 1,
                 packets + Packets(j.s, (j.sequence + i) % 0x1_0000,
                                   [Out(j.last && off + chunk == |j.n|, FuPayload(j.c, j.n, off, chunk))]))
  {
    SentOne(j, off, i, packets);
    hide FuPayload, Packets, NalPayloads, Fragments, Marked;
  }

  lemma {:induction false} SentAll(j: Job, i: nat, packets: seq<bytes>)
    requires j.Long() && Sent(j, |j.n|, i, packets)
    ensures i == |j.All()| && packets == j.sent + Packets(j.s, j.sequence, Marked(j.All(), j.last))
  {
    var outs := Marked(j.All(), j.last);
    assert |j.All()[i..]| == 0;
    assert outs[..i] == outs;
  }

  lemma {:induction false} FragmentsStep(c: Video, n: bytes, off: nat, mtu: nat)
    requires HeaderLen(c) <= off < |n| && HeaderLen(c) + 1 < mtu
    ensures var chunk := ChunkLen(c, n, off, mtu);
            && Fragments(c, n, off, mtu) == [FuPayload(c, n, off, chunk)] + Fragments(c, n, off + chunk, mtu)
            && (Fragments(c, n, off + chunk, mtu) == [] <==> off + chunk == |n|)
  {
  }

  lemma {:induction false} TakeOne<T>(all: seq<T>, i: nat, x: T, rest: seq<T>)
    requires i <= |all| && all[i..] == [x] + rest
    ensures i < |all| && all[i] == x && all[i + 1..] == rest
    ensures rest == [] <==> i + 1 == |all|
  {
    assert |all[i..]| == 1 + |rest|;
    assert all[i] == all[i..][0];
    assert all[i + 1..] == all[i..][1..];
  }

  lemma {:induction false} AccessUnitStep(c: Video, ns: seq<bytes>, mtu: nat)
    requires ns != [] && forall n :: n in ns ==> Splittable(c, n, mtu)
    ensures AccessUnit(c, ns, mtu) == Marked(NalPayloads(c, ns[0], mtu), |ns| == 1) + AccessUnit(c, ns[1..], mtu)
  {
  }

  lemma {:induction false} AccessUnitEnd(c: Video, ns: seq<bytes>, mtu: nat)
    requires ns == []
    ensures AccessUnit(c, ns, mtu) == []
  {
  }
}
