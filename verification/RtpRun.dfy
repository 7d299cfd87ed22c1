/** Whole runs of the elementary stream packetizer (crates/core/src/rtp.rs, `packetize`) as receivers see them:
  * a receiver written from the standards, and the depacketizer of crates/rtsp/src/session.rs.
  */
module RtpRun {
  import opened Bytes
  import opened Frames
  import opened NalUnits
  import opened Payload
  import opened Rtp
  import opened RtpStream

  // ---- runs ----

  ghost predicate AllSendable(c: Session, frames: seq<MediaFrame>) {
    forall f :: f in frames ==> Sendable(f, c.mtu)
  }

  function StreamOf(c: Session, f: MediaFrame): Stream {
    Stream(c.ssrc, c.payloadType, Ticks(f.timestamp, c.clockRate))
  }

  /** The packets of each frame; the sequence number runs on modulo 2^16. */
  function Sends(c: Session, sequence: nat, frames: seq<MediaFrame>): (r: seq<seq<bytes>>)
    requires c.Valid() && AllSendable(c, frames)
    ensures |r| == |frames|
    decreases |frames|
  {
    if frames == [] then []
    else
      var outs := FrameOuts(frames[0], c.mtu);
      [Packets(StreamOf(c, frames[0]), sequence, outs)]
      + Sends(c, (sequence + |outs|) % 0x1_0000, frames[1..])
  }

  function Flat<T>(ss: seq<seq<T>>): seq<T> {
    if ss == [] then [] else ss[0] + Flat(ss[1..])
  }

  lemma {:induction false} SendsStep(c: Session, sequence: nat, frames: seq<MediaFrame>)
    requires c.Valid() && AllSendable(c, frames) && frames != []
    ensures var ps := Packets(StreamOf(c, frames[0]), sequence, FrameOuts(frames[0], c.mtu));
            var rest := Sends(c, (sequence + |ps|) % 0x1_0000, frames[1..]);
            && Sends(c, sequence, frames) == [ps] + rest && Flat(Sends(c, sequence, frames)) == ps + Flat(rest)
  {
    hide Packets, FrameOuts, Ticks;
  }

  lemma {:induction false} SendsEnd(c: Session, sequence: nat)
    requires c.Valid()
    ensures Flat(Sends(c, sequence, [])) == []
  {
  }

  lemma {:induction false} ConsecutiveWraps(ps: seq<bytes>, first: nat)
    requires Consecutive(ps, first % 0x1_0000)
    ensures Consecutive(ps, first)
  {
    hide Sequence;
    forall i: nat | i < |ps|
      ensures 12 <= |ps[i]| && Sequence(ps[i]) == (first + i) % 0x1_0000
    {
      WrapAdd(first, i);
    }
  }

  /** Over every run, of audio and video frames and of frames that fail, the sequence numbers are consecutive. */
  lemma {:induction false} RunIsNumbered(c: Session, sequence: nat, frames: seq<MediaFrame>)
    requires c.Valid() && AllSendable(c, frames)
    ensures Consecutive(Flat(Sends(c, sequence, frames)), sequence)
    decreases |frames|
  {
    hide *;
    if frames == [] {
      SendsEnd(c, sequence);
      ConsecutiveEmpty(sequence);
    } else {
      AllSendableStep(c, frames);
      SendsStep(c, sequence, frames);
      StreamIsValid(c, frames[0]);
      var outs := FrameOuts(frames[0], c.mtu);
      var ps := Packets(StreamOf(c, frames[0]), sequence, outs);
      var rest := Sends(c, (sequence + |ps|) % 0x1_0000, frames[1..]);
      PacketsAreReadBack(StreamOf(c, frames[0]), sequence, outs);
      RunIsNumbered(c, (sequence + |ps|) % 0x1_0000, frames[1..]);
      ConsecutiveWraps(Flat(rest), sequence + |ps|);
      ConsecutiveAppend(ps, Flat(rest), sequence);
    }
  }

  lemma {:induction false} AllSendableStep(c: Session, frames: seq<MediaFrame>)
    requires AllSendable(c, frames) && frames != []
    ensures Sendable(frames[0], c.mtu) && AllSendable(c, frames[1..])
  {
  }

  lemma {:induction false} StreamIsValid(c: Session, f: MediaFrame)
    requires c.Valid()
    ensures StreamOf(c, f).payloadType < 0x80
  {
  }

  /** What the packets of one frame of a run hold. */
  ghost predicate FrameIsSent(c: Session, f: MediaFrame, packets: seq<bytes>)
    requires Sendable(f, c.mtu)
  {
    var outs := FrameOuts(f, c.mtu);
    && |packets| == |outs| && Payloads(packets) == OutPayloads(outs)
    && forall i :: 0 <= i < |packets| ==>
         && 12 <= |packets[i]| && Marker(packets[i]) == outs[i].marker
         && U32(packets[i], 4) == Ticks(f.timestamp, c.clockRate)
  }

  lemma {:induction false} PacketsAreSent(c: Session, sequence: nat, f: MediaFrame)
    requires c.Valid() && Sendable(f, c.mtu)
    ensures FrameIsSent(c, f, Packets(StreamOf(c, f), sequence, FrameOuts(f, c.mtu)))
  {
    hide Packets, Payloads, OutPayloads, FrameOuts, Ticks, Marker, Sequence, U32, Consecutive;
    var s := StreamOf(c, f);
    var outs := FrameOuts(f, c.mtu);
    PacketsAreReadBack(s, sequence, outs);
    forall i: nat | i < |outs|
      ensures var p := Packets(s, sequence, outs)[i]; 12 <= |p| && U32(p, 4) == Ticks(f.timestamp, c.clockRate)
    {
      PacketsCarry(s, sequence, outs, i);
    }
  }

  lemma {:induction false} EachFrameIsSent(c: Session, sequence: nat, frames: seq<MediaFrame>, i: nat)
    requires c.Valid() && AllSendable(c, frames) && i < |frames|
    ensures Sendable(frames[i], c.mtu) && FrameIsSent(c, frames[i], Sends(c, sequence, frames)[i])
    decreases |frames|
  {
    hide *;
    AllSendableStep(c, frames);
    SendsStep(c, sequence, frames);
    if i == 0 {
      PacketsAreSent(c, sequence, frames[0]);
    } else {
      StreamIsValid(c, frames[0]);
      var n := |Packets(StreamOf(c, frames[0]), sequence, FrameOuts(frames[0], c.mtu))|;
      EachFrameIsSent(c, (sequence + n) % 0x1_0000, frames[1..], i - 1);
    }
  }

  /** A receiver gets exactly the kept units of a video frame if and only if each one sent whole has the type of a
    * whole unit; an audio frame with a payload is one marked packet with that payload. */
  ghost predicate Reassembles(f: MediaFrame, packets: seq<bytes>, mtu: nat) {
    if f.frameType == Video then
      Reassemble(VideoOf(f), Payloads(packets), None) == Some(KeptUnits(VideoOf(f), UnitsOf(f)))
      <==> forall n :: n in UnitsOf(f) ==> Plain(VideoOf(f), n, mtu)
    else
      && Payloads(packets)
         == (if f.frameType == Audio && AudioPayload(f).Ok? && AudioPayload(f).value != []
             then [AudioPayload(f).value] else [])
      && forall p :: p in packets ==> 12 <= |p| && Marker(p)
  }

  lemma {:induction false} SentReassembles(c: Session, f: MediaFrame, packets: seq<bytes>)
    requires Sendable(f, c.mtu) && FrameIsSent(c, f, packets)
    ensures Reassembles(f, packets, c.mtu)
  {
    hide Ticks, Reassemble, KeptUnits, Plain, AccessUnit, Splittable, Marker, U32, AudioPayload, Nals, AnnexBUnits;
    if f.frameType == Video {
      AccessUnitReassembles(VideoOf(f), UnitsOf(f), c.mtu);
    }
  }

  /** Frame by frame over every run, the packets of a frame give it back and carry its time on the media clock. */
  lemma {:induction false} RunIsReassembled(c: Session, sequence: nat, frames: seq<MediaFrame>, i: nat)
    requires c.Valid() && AllSendable(c, frames) && i < |frames|
    ensures Reassembles(frames[i], Sends(c, sequence, frames)[i], c.mtu)
    ensures forall p :: p in Sends(c, sequence, frames)[i] ==>
              12 <= |p| && U32(p, 4) == Ticks(frames[i].timestamp, c.clockRate)
  {
    hide Sends, Ticks, Reassembles, U32, Marker, FrameOuts;
    EachFrameIsSent(c, sequence, frames, i);
    SentReassembles(c, frames[i], Sends(c, sequence, frames)[i]);
  }

  // ---- the depacketizer of the RTSP session ----

  /** Units of the current frame, and the unit being put together from fragments. */
  datatype Depak = Depak(pending: seq<bytes>, fu: Option<bytes>)

  function AggregateType(c: Video): nat {
    if c == Avc then 24 else 48
  }

  /** The units of an aggregation packet from `pos` on, each behind a 16-bit length. */
  function Aggregated(d: bytes, pos: nat): seq<bytes>
    decreases |d| - pos
  {
    if pos + 2 > |d| || pos + 2 + U16(d, pos) > |d| then []
    else [d[pos + 2..pos + 2 + U16(d, pos)]] + Aggregated(d, pos + 2 + U16(d, pos))
  }

  /** A payload taken for one whole unit. */
  predicate IsWhole(c: Video, p: bytes) {
    HeaderLen(c) <= |p| && if c == Avc then 1 <= NalType(c, p) < 24 else NalType(c, p) != 48 && NalType(c, p) != 49
  }

  predicate IsAggregate(c: Video, p: bytes) {
    HeaderLen(c) <= |p| && NalType(c, p) == AggregateType(c)
  }

  /** The new state, and whether the marker is looked at. */
  datatype Taken = Taken(next: Depak, heeds: bool)

  function TakeFragment(c: Video, s: Depak, p: bytes): Taken
    requires IsFragment(c, p)
  {
    var nalType := p[HeaderLen(c)] % if c == Avc then 0x20 else 0x40;
    var begun := if StartBit(c, p) then Some(Restored(c, p, nalType)) else s.fu;
    if begun.None? then Taken(s, c == Hevc)
    else
      var unit := begun.value + p[HeaderLen(c) + 1..];
      Taken(if EndBit(c, p) then Depak(s.pending + [unit], None) else s.(fu := Some(unit)), true)
  }

  /** One RTP payload of the video track. */
  function Take(c: Video, s: Depak, p: bytes): Taken {
    if p == [] then Taken(s, false)
    else if IsWhole(c, p) then Taken(s.(pending := s.pending + [p]), true)
    else if IsAggregate(c, p) then Taken(s.(pending := s.pending + Aggregated(p, HeaderLen(c))), true)
    else if IsFragment(c, p) then TakeFragment(c, s, p)
    else Taken(s, c == Hevc || NalType(c, p) != FuType(c))
  }

  /** The new state and the groups of units that were made into frames. */
  datatype Fed = Fed(next: Depak, groups: seq<seq<bytes>>)

  function FeedPayload(c: Video, s: Depak, p: bytes, marker: bool): Fed {
    var t := Take(c, s, p);
    if marker && t.heeds && t.next.pending != [] then Fed(t.next.(pending := []), [t.next.pending])
    else Fed(t.next, [])
  }

  /** One RTP packet; those without a payload are ignored. */
  function FeedPacket(c: Video, s: Depak, packet: bytes): Fed {
    if |packet| < 12 || |packet| < 13 + 4 * (packet[0] as int % 0x10) then Fed(s, [])
    else FeedPayload(c, s, packet[12 + 4 * (packet[0] as int % 0x10)..], Marker(packet))
  }

  function FeedAll(c: Video, s: Depak, packets: seq<bytes>): Fed
    decreases |packets|
  {
    if packets == [] then Fed(s, [])
    else
      var one := FeedPacket(c, s, packets[0]);
      var rest := FeedAll(c, one.next, packets[1..]);
      Fed(rest.next, one.groups + rest.groups)
  }

  const EMPTY := Depak([], None)

  class VideoDepacketizer {
    const codec: Video
    var pendingNalus: seq<bytes>
    var fuBuf: bytes
    var fuActive: bool

    function Value(): Depak
      reads this
    {
      Depak(pendingNalus, if fuActive then Some(fuBuf) else None)
    }

    constructor (codec: Video)
      ensures Value() == EMPTY && this.codec == codec
    {
      this.codec := codec;
      pendingNalus, fuBuf, fuActive := [], [], false;
    }

    /** The units of an aggregation packet behind a header of `pos` bytes. */
    method TakeAggregate(data: bytes, start: nat)
      modifies this`pendingNalus
      ensures pendingNalus == old(pendingNalus) + Aggregated(data, start)
    {
      var pos := start;
      while pos + 2 <= |data|
        invariant old(pendingNalus) + Aggregated(data, start) == pendingNalus + Aggregated(data, pos)
        decreases |data| - pos
      {
        var n := U16(data, pos);
        if pos + 2 + n > |data| {
          break;
        }
        pendingNalus := pendingNalus + [data[pos + 2..pos + 2 + n]];
        pos := pos + 2 + n;
      }
    }

    /** Fragments of both codecs; says whether the marker is looked at. */
    method TakeFragmentOf(data: bytes) returns (heeds: bool)
      requires IsFragment(codec, data)
      modifies this`pendingNalus, this`fuBuf, this`fuActive
      ensures Taken(Value(), heeds) == TakeFragment(codec, old(Value()), data)
    {
      hide StartBit, EndBit, Restored;
      var h := HeaderLen(codec);
      if StartBit(codec, data) {
        fuBuf := Restored(codec, data, data[h] % if codec == Avc then 0x20 else 0x40);
        fuActive := true;
      }
      if !fuActive {
        return codec == Hevc;
      }
      fuBuf := fuBuf + data[h + 1..];
      if EndBit(codec, data) {
        pendingNalus := pendingNalus + [fuBuf];
        fuBuf, fuActive := [], false;
      }
      return true;
    }

    /** `handle_video_rtp` and `handle_hevc_video_rtp`: at most one group of units leaves with a marker. */
    method HandleVideoRtp(data: bytes, marker: bool) returns (groups: seq<seq<bytes>>)
      modifies this`pendingNalus, this`fuBuf, this`fuActive
      ensures Fed(Value(), groups) == FeedPayload(codec, old(Value()), data, marker)
    {
      hide Aggregated, TakeFragment, StartBit, EndBit;
      if data == [] {
        return [];
      }
      var heeds := true;
      if codec == Hevc && |data| < 2 {
        heeds := true;
      } else if NalType(codec, data) == AggregateType(codec) {
        TakeAggregate(data, HeaderLen(codec));
      } else if NalType(codec, data) == FuType(codec) {
        if |data| <= HeaderLen(codec) {
          heeds := codec == Hevc;
        } else {
          heeds := TakeFragmentOf(data);
        }
      } else if codec == Hevc || 1 <= NalType(codec, data) < 24 {
        pendingNalus := pendingNalus + [data];
      }
      if marker && heeds && pendingNalus != [] {
        groups := [pendingNalus];
        pendingNalus := [];
      } else {
        groups := [];
      }
    }

    /** `handle_rtp` for a video track: the header with its contributing sources is stripped. */
    method HandleRtp(packet: bytes) returns (groups: seq<seq<bytes>>)
      modifies this`pendingNalus, this`fuBuf, this`fuActive
      ensures Fed(Value(), groups) == FeedPacket(codec, old(Value()), packet)
    {
      hide FeedPayload;
      if |packet| < 12 {
        return [];
      }
      var headerLen := 12 + 4 * (packet[0] as int % 0x10);
      if |packet| < headerLen + 1 {
        return [];
      }
      groups := HandleVideoRtp(packet[headerLen..], packet[1] >= 0x80);
    }
  }

  // ---- from payloads to packets ----

  function FeedOuts(c: Video, s: Depak, outs: seq<Out>): Fed
    decreases |outs|
  {
    if outs == [] then Fed(s, [])
    else
      var one := FeedPayload(c, s, outs[0].payload, outs[0].marker);
      var rest := FeedOuts(c, one.next, outs[1..]);
      Fed(rest.next, one.groups + rest.groups)
  }

  /** The packets have a plain twelve-byte header with the marker, and then the payload. */
  ghost predicate Holding(packets: seq<bytes>, outs: seq<Out>) {
    && |packets| == |outs|
    && forall i :: 0 <= i < |outs| ==>
         && 12 <= |packets[i]| && packets[i][0] == 0x80 && Marker(packets[i]) == outs[i].marker
         && packets[i][12..] == outs[i].payload
  }

  lemma {:induction false} PacketsHold(s: Stream, sequence: nat, outs: seq<Out>)
    requires s.payloadType < 0x80
    ensures Holding(Packets(s, sequence, outs), outs)
  {
    hide Sequence, Marker, U32;
    forall i: nat | i < |outs|
      ensures var p := Packets(s, sequence, outs)[i];
              && 12 <= |p| && p[0] == 0x80 && Marker(p) == outs[i].marker && p[12..] == outs[i].payload
    {
      PacketsCarry(s, sequence, outs, i);
    }
  }

  lemma {:induction false} PacketIsFed(c: Video, s: Depak, packet: bytes, o: Out)
    requires 12 <= |packet| && packet[0] == 0x80 && Marker(packet) == o.marker && packet[12..] == o.payload
    ensures FeedPacket(c, s, packet) == FeedPayload(c, s, o.payload, o.marker)
  {
    hide IsWhole, IsAggregate, IsFragment, TakeFragment, Aggregated, Marker;
  }

  lemma {:induction false} PacketsAreFed(c: Video, s: Depak, packets: seq<bytes>, outs: seq<Out>)
    requires Holding(packets, outs)
    ensures FeedAll(c, s, packets) == FeedOuts(c, s, outs)
    decreases |outs|
  {
    hide FeedPacket, FeedPayload, Marker;
    if outs != [] {
      PacketIsFed(c, s, packets[0], outs[0]);
      PacketsAreFed(c, FeedPacket(c, s, packets[0]).next, packets[1..], outs[1..]);
    }
  }

  /** Feeding one run behind another. */
  function Then(a: Fed, b: Fed): Fed {
    Fed(b.next, a.groups + b.groups)
  }

  lemma {:induction false} FeedAllAppend(c: Video, s: Depak, a: seq<bytes>, b: seq<bytes>)
    ensures FeedAll(c, s, a + b) == Then(FeedAll(c, s, a), FeedAll(c, FeedAll(c, s, a).next, b))
    decreases |a|
  {
    hide FeedPacket;
    if a == [] {
      assert a + b == b;
    } else {
      assert (a + b)[1..] == a[1..] + b;
      FeedAllAppend(c, FeedPacket(c, s, a[0]).next, a[1..], b);
    }
  }

  lemma {:induction false} FeedOutsAppend(c: Video, s: Depak, a: seq<Out>, b: seq<Out>)
    ensures FeedOuts(c, s, a + b) == Then(FeedOuts(c, s, a), FeedOuts(c, FeedOuts(c, s, a).next, b))
    decreases |a|
  {
    hide FeedPayload;
    if a == [] {
      assert a + b == b;
    } else {
      assert (a + b)[1..] == a[1..] + b;
      FeedOutsAppend(c, FeedPayload(c, s, a[0].payload, a[0].marker).next, a[1..], b);
    }
  }

  lemma {:induction false} FeedOutsOne(c: Video, s: Depak, o: Out, rest: seq<Out>)
    ensures FeedOuts(c, s, [o] + rest)
            == Then(FeedPayload(c, s, o.payload, o.marker),
                    FeedOuts(c, FeedPayload(c, s, o.payload, o.marker).next, rest))
    ensures FeedOuts(c, s, [o]) == FeedPayload(c, s, o.payload, o.marker)
    ensures FeedOuts(c, s, []) == Fed(s, [])
  {
    hide FeedPayload;
    assert ([o] + rest)[1..] == rest && [o][1..] == [];
    var one := FeedPayload(c, s, o.payload, o.marker);
    assert one.groups + [] == one.groups;
  }

  function RunOuts(frames: seq<MediaFrame>, mtu: nat): seq<Out>
    requires forall f :: f in frames ==> Sendable(f, mtu)
  {
    if frames == [] then [] else FrameOuts(frames[0], mtu) + RunOuts(frames[1..], mtu)
  }

  lemma {:induction false} RunIsFed(c: Session, sequence: nat, v: Video, s: Depak, frames: seq<MediaFrame>)
    requires c.Valid() && AllSendable(c, frames)
    ensures FeedAll(v, s, Flat(Sends(c, sequence, frames))) == FeedOuts(v, s, RunOuts(frames, c.mtu))
    decreases |frames|
  {
    hide Packets, FrameOuts, FeedAll, FeedOuts, Sends, Flat, StreamOf, Sendable, Holding;
    if frames == [] {
      SendsEnd(c, sequence);
      NothingFed(v, s);
    } else {
      var outs := FrameOuts(frames[0], c.mtu);
      StreamIsValid(c, frames[0]);
      var ps := Packets(StreamOf(c, frames[0]), sequence, outs);
      SendsStep(c, sequence, frames);
      PacketsHold(StreamOf(c, frames[0]), sequence, outs);
      PacketsAreFed(v, s, ps, outs);
      FeedAllAppend(v, s, ps, Flat(Sends(c, (sequence + |ps|) % 0x1_0000, frames[1..])));
      RunIsFed(c, (sequence + |ps|) % 0x1_0000, v, FeedAll(v, s, ps).next, frames[1..]);
      FeedOutsAppend(v, s, outs, RunOuts(frames[1..], c.mtu));
    }
  }

  lemma {:induction false} NothingFed(v: Video, s: Depak)
    ensures FeedAll(v, s, []) == FeedOuts(v, s, []) == Fed(s, [])
  {
  }

  // ---- one unit and one access unit ----

  /** A unit sent whole has a type the depacketizer takes for a whole unit. */
  predicate Clear(c: Video, n: bytes, mtu: nat) {
    Kept(c, n) && |n| <= mtu ==> IsWhole(c, n)
  }

  lemma {:induction false} FragmentIsTaken(c: Video, pending: seq<bytes>, n: bytes, off: nat, chunk: nat)
    requires HeaderLen(c) <= off < |n| && 0 < chunk && off + chunk <= |n|
    ensures Take(c, Depak(pending, Held(c, n, off)), FuPayload(c, n, off, chunk))
            == Taken(if off + chunk == |n| then Depak(pending + [n], None)
                     else Depak(pending, Held(c, n, off + chunk)), true)
  {
    hide FuPayload, StartBit, EndBit, Restored;
    FragmentBits(c, n, off, chunk);
    assert n[..off] + n[off..off + chunk] == n[..off + chunk];
    assert off + chunk == |n| ==> n[..off + chunk] == n;
  }

  /** Fragments from `off` on complete the unit. */
  lemma {:induction false} FragmentsAreFed(c: Video, pending: seq<bytes>, n: bytes, off: nat, mtu: nat, last: bool)
    requires HeaderLen(c) <= off < |n| && HeaderLen(c) + 1 < mtu
    ensures FeedOuts(c, Depak(pending, Held(c, n, off)), Marked(Fragments(c, n, off, mtu), last))
            == if last then Fed(EMPTY, [pending + [n]]) else Fed(Depak(pending + [n], None), [])
    decreases |n| - off
  {
    hide FuPayload, Take, Held, Fragments, FeedOuts;
    var chunk := ChunkLen(c, n, off, mtu);
    var p := FuPayload(c, n, off, chunk);
    var more := Fragments(c, n, off + chunk, mtu);
    var end := off + chunk == |n|;
    FragmentsStep(c, n, off, mtu);
    FragmentIsTaken(c, pending, n, off, chunk);
    MarkedStep(p, more, last);
    FeedOutsOne(c, Depak(pending, Held(c, n, off)), Out(last && end, p), Marked(more, last));
    if end {
      assert Marked(more, last) == [];
      FeedOutsOne(c, EMPTY, Out(last, p), []);
      FeedOutsOne(c, Depak(pending + [n], None), Out(last, p), []);
    } else {
      FragmentsAreFed(c, pending, n, off + chunk, mtu, last);
    }
  }

  lemma {:induction false} MarkedStep(p: bytes, more: seq<bytes>, last: bool)
    ensures Marked([p] + more, last) == [Out(last && more == [], p)] + Marked(more, last)
  {
  }

  lemma {:induction false} UnitIsFed(c: Video, pending: seq<bytes>, n: bytes, mtu: nat, last: bool)
    requires Splittable(c, n, mtu) && Clear(c, n, mtu)
    ensures FeedOuts(c, Depak(pending, None), Marked(NalPayloads(c, n, mtu), last))
            == if !Kept(c, n) then Fed(Depak(pending, None), [])
               else if last then Fed(EMPTY, [pending + [n]]) else Fed(Depak(pending + [n], None), [])
  {
    hide Fragments, FeedOuts, IsAggregate, IsFragment, TakeFragment, Aggregated;
    FeedOutsOne(c, Depak(pending, None), Out(last, n), []);
    if Kept(c, n) && |n| <= mtu {
      assert Marked([n], last) == [Out(last, n)];
    } else if Kept(c, n) {
      FragmentsAreFed(c, pending, n, HeaderLen(c), mtu, last);
    }
  }

  /** What an access unit adds: its kept units, and the end of the frame if its last unit is kept. */
  function Closed(c: Video, pending: seq<bytes>, ns: seq<bytes>): Fed {
    var all := pending + KeptUnits(c, ns);
    if ns != [] && Kept(c, ns[|ns| - 1]) then Fed(EMPTY, [all]) else Fed(Depak(all, None), [])
  }

  lemma {:induction false} ClosedStep(c: Video, pending: seq<bytes>, ns: seq<bytes>)
    requires ns != []
    ensures |ns| > 1 ==>
              Closed(c, pending, ns) == Closed(c, pending + if Kept(c, ns[0]) then [ns[0]] else [], ns[1..])
    ensures |ns| == 1 ==>
              Closed(c, pending, ns)
              == if Kept(c, ns[0]) then Fed(EMPTY, [pending + [ns[0]]]) else Fed(Depak(pending, None), [])
  {
    hide Kept;
    var first := if Kept(c, ns[0]) then [ns[0]] else [];
    assert pending + (first + KeptUnits(c, ns[1..])) == (pending + first) + KeptUnits(c, ns[1..]);
    if |ns| == 1 {
      assert ns[1..] == [] && first + [] == first && pending + [] == pending;
    }
  }

  lemma {:induction false} AccessUnitIsFed(c: Video, pending: seq<bytes>, ns: seq<bytes>, mtu: nat)
    requires forall n :: n in ns ==> Splittable(c, n, mtu) && Clear(c, n, mtu)
    ensures FeedOuts(c, Depak(pending, None), AccessUnit(c, ns, mtu)) == Closed(c, pending, ns)
    decreases |ns|
  {
    hide NalPayloads, Marked, Clear, Splittable, Kept, FeedOuts, AccessUnit, Closed;
    if ns == [] {
      AccessUnitEnd(c, ns, mtu);
      ClosedNothing(c, pending);
    } else {
      var first := Marked(NalPayloads(c, ns[0], mtu), |ns| == 1);
      var rest := AccessUnit(c, ns[1..], mtu);
      AccessUnitStep(c, ns, mtu);
      UnitIsFed(c, pending, ns[0], mtu, |ns| == 1);
      FeedOutsAppend(c, Depak(pending, None), first, rest);
      ClosedStep(c, pending, ns);
      if |ns| == 1 {
        AccessUnitEnd(c, ns[1..], mtu);
        FeedOutsOne(c, FeedOuts(c, Depak(pending, None), first).next, Out(true, []), []);
      } else {
        var p := pending + if Kept(c, ns[0]) then [ns[0]] else [];
        assert pending + [] == pending;
        AccessUnitIsFed(c, p, ns[1..], mtu);
      }
    }
  }

  lemma {:induction false} ClosedNothing(c: Video, pending: seq<bytes>)
    ensures FeedOuts(c, Depak(pending, None), []) == Closed(c, pending, [])
  {
    assert pending + [] == pending;
  }

  // ---- whole runs ----

  /** All video of the frames is of one codec, as on one RTP track. */
  predicate OneTrack(c: Video, frames: seq<MediaFrame>) {
    forall f :: f in frames ==>
      f.frameType != Audio && (f.frameType == Video && f.codec in {H264, H265} ==> VideoOf(f) == c)
  }

  /** The frames a receiver should make of a run: an access unit whose last unit is dropped runs into the next. */
  function Grouped(c: Video, pending: seq<bytes>, frames: seq<MediaFrame>): Fed
    decreases |frames|
  {
    if frames == [] then Fed(Depak(pending, None), [])
    else
      var one := Closed(c, pending, UnitsOf(frames[0]));
      Then(one, Grouped(c, one.next.pending, frames[1..]))
  }

  ghost predicate AllClear(c: Video, frames: seq<MediaFrame>, mtu: nat) {
    forall f, n :: f in frames && n in UnitsOf(f) ==> Clear(c, n, mtu)
  }

  lemma {:induction false} FrameIsFed(c: Video, pending: seq<bytes>, f: MediaFrame, mtu: nat)
    requires Sendable(f, mtu) && OneTrack(c, [f]) && forall n :: n in UnitsOf(f) ==> Clear(c, n, mtu)
    ensures FeedOuts(c, Depak(pending, None), FrameOuts(f, mtu)) == Closed(c, pending, UnitsOf(f))
  {
    hide FeedOuts, Closed, Clear, Splittable, AccessUnit, Nals, AnnexBUnits, AudioPayload;
    assert f in [f];
    ClosedNothing(c, pending);
    if f.frameType == Video {
      AccessUnitEnd(VideoOf(f), [], mtu);
      if Converts(f) {
        AccessUnitIsFed(c, pending, UnitsOf(f), mtu);
      }
    }
  }

  lemma {:induction false} OutsAreGrouped(c: Video, pending: seq<bytes>, frames: seq<MediaFrame>, mtu: nat)
    requires OneTrack(c, frames) && AllClear(c, frames, mtu) && forall f :: f in frames ==> Sendable(f, mtu)
    ensures FeedOuts(c, Depak(pending, None), RunOuts(frames, mtu)) == Grouped(c, pending, frames)
    decreases |frames|
  {
    hide FeedOuts, Closed, Clear, Sendable, FrameOuts, UnitsOf;
    if frames == [] {
      NothingFed(c, Depak(pending, None));
    } else {
      var one := Closed(c, pending, UnitsOf(frames[0]));
      FrameIsFed(c, pending, frames[0], mtu);
      FeedOutsAppend(c, Depak(pending, None), FrameOuts(frames[0], mtu), RunOuts(frames[1..], mtu));
      ClosedState(c, pending, UnitsOf(frames[0]));
      OutsAreGrouped(c, one.next.pending, frames[1..], mtu);
    }
  }

  lemma {:induction false} ClosedState(c: Video, pending: seq<bytes>, ns: seq<bytes>)
    ensures Closed(c, pending, ns).next == Depak(Closed(c, pending, ns).next.pending, None)
  {
  }

  /** Packetizing a run of frames and feeding every packet to the depacketizer groups the kept units into frames. */
  lemma {:induction false} RunIsGrouped(c: Session, sequence: nat, v: Video, frames: seq<MediaFrame>)
    requires c.Valid() && AllSendable(c, frames) && OneTrack(v, frames) && AllClear(v, frames, c.mtu)
    ensures FeedAll(v, EMPTY, Flat(Sends(c, sequence, frames))) == Grouped(v, [], frames)
  {
    hide FeedAll, Sends, Flat, Grouped, FeedOuts, RunOuts, OneTrack, AllClear, Sendable;
    RunIsFed(c, sequence, v, EMPTY, frames);
    OutsAreGrouped(v, [], frames, c.mtu);
  }

  // ---- frame by frame ----

  /** The units of each frame that has any. */
  function PerFrame(c: Video, frames: seq<MediaFrame>): seq<seq<bytes>> {
    if frames == [] then []
    else (if UnitsOf(frames[0]) == [] then [] else [KeptUnits(c, UnitsOf(frames[0]))]) + PerFrame(c, frames[1..])
  }

  predicate EndsKept(c: Video, f: MediaFrame) {
    UnitsOf(f) != [] ==> Kept(c, UnitsOf(f)[|UnitsOf(f)| - 1])
  }

  lemma {:induction false} GroupedPerFrame(c: Video, frames: seq<MediaFrame>)
    requires forall f :: f in frames ==> EndsKept(c, f)
    ensures Grouped(c, [], frames) == Fed(EMPTY, PerFrame(c, frames))
    decreases |frames|
  {
    hide UnitsOf, Kept;
    if frames != [] {
      var ns := UnitsOf(frames[0]);
      assert EndsKept(c, frames[0]);
      assert [] + KeptUnits(c, ns) == KeptUnits(c, ns);
      GroupedPerFrame(c, frames[1..]);
    }
  }

  lemma {:induction false} AvcEndsKept(f: MediaFrame)
    ensures EndsKept(Avc, f)
  {
    hide Nals, AnnexBUnits;
    if UnitsOf(f) != [] {
      var d := AnnexBUnits(f).value;
      NalsAreNotEmpty(d);
      assert UnitsOf(f)[|UnitsOf(f)| - 1] in Nals(d);
    }
  }

  lemma {:induction false} NalsAreNotEmpty(d: bytes)
    ensures forall n :: n in Nals(d) ==> n != []
  {
    hide NalsFrom;
    NalsAreClean(d, None, 0);
  }

  /** Over every run the depacketizer makes one frame of each frame with units, in order and with exactly its kept
    * units, if no access unit ends in a dropped unit; for H.264 none ever does. */
  lemma {:induction false} RunIsReceived(c: Session, sequence: nat, v: Video, frames: seq<MediaFrame>)
    requires c.Valid() && AllSendable(c, frames) && OneTrack(v, frames) && AllClear(v, frames, c.mtu)
    requires v == Hevc ==> forall f :: f in frames ==> EndsKept(v, f)
    ensures FeedAll(v, EMPTY, Flat(Sends(c, sequence, frames))) == Fed(EMPTY, PerFrame(v, frames))
  {
    hide *;
    RunIsGrouped(c, sequence, v, frames);
    forall f | f in frames
      ensures EndsKept(v, f)
    {
      if v == Avc {
        AvcEndsKept(f);
      }
    }
    GroupedPerFrame(v, frames);
  }

  // ---- exactly when every unit arrives ----

  /** Every unit received so far, in order. */
  function Units(r: Fed): seq<bytes> {
    Flat(r.groups) + r.next.pending
  }

  function AllUnits(c: Video, frames: seq<MediaFrame>): seq<bytes> {
    if frames == [] then [] else KeptUnits(c, UnitsOf(frames[0])) + AllUnits(c, frames[1..])
  }

  lemma {:induction false} FlatAppend<T>(a: seq<seq<T>>, b: seq<seq<T>>)
    ensures Flat(a + b) == Flat(a) + Flat(b)
  {
    if a == [] {
      assert a + b == b;
    } else {
      assert (a + b)[1..] == a[1..] + b;
      FlatAppend(a[1..], b);
    }
  }

  lemma {:induction false} ClosedUnits(c: Video, pending: seq<bytes>, ns: seq<bytes>)
    ensures Units(Closed(c, pending, ns)) == pending + KeptUnits(c, ns)
  {
    var all := pending + KeptUnits(c, ns);
    OneGroup(all);
    NoGroups();
    assert all + [] == all && [] + all == all;
  }

  lemma {:induction false} GroupedUnits(c: Video, pending: seq<bytes>, frames: seq<MediaFrame>)
    ensures Units(Grouped(c, pending, frames)) == pending + AllUnits(c, frames)
    decreases |frames|
  {
    hide Closed, UnitsOf, KeptUnits, Flat;
    if frames == [] {
      NoGroups();
      assert [] + pending == pending == pending + [];
    } else {
      var ns := UnitsOf(frames[0]);
      var one := Closed(c, pending, ns);
      var rest := Grouped(c, one.next.pending, frames[1..]);
      ClosedUnits(c, pending, ns);
      GroupedUnits(c, one.next.pending, frames[1..]);
      FlatAppend(one.groups, rest.groups);
      Assoc(Flat(one.groups), Flat(rest.groups), rest.next.pending);
      Assoc(Flat(one.groups), one.next.pending, AllUnits(c, frames[1..]));
      Assoc(pending, KeptUnits(c, ns), AllUnits(c, frames[1..]));
    }
  }

  lemma {:induction false} OneGroup(g: seq<bytes>)
    ensures Flat([g]) == g
  {
    assert |[g][1..]| == 0 && Flat([g]) == g + Flat([g][1..]);
  }

  lemma {:induction false} NoGroups()
    ensures Flat<bytes>([]) == []
  {
  }

  /** The most bytes a payload can add to what is received. */
  function Gain(c: Video, p: bytes): nat {
    if IsFragment(c, p) then Weight(c, p)
    else if IsWhole(c, p) then |p|
    else if IsAggregate(c, p) then |p| - HeaderLen(c)
    else 0
  }

  function Gains(c: Video, ps: seq<bytes>): nat {
    if ps == [] then 0 else Gain(c, ps[0]) + Gains(c, ps[1..])
  }

  function Size(s: Depak): nat {
    Total(s.pending) + if s.fu.Some? then |s.fu.value| else 0
  }

  lemma {:induction false} TotalAppend(a: seq<bytes>, b: seq<bytes>)
    ensures Total(a + b) == Total(a) + Total(b)
  {
    if a == [] {
      assert a + b == b;
    } else {
      assert (a + b)[1..] == a[1..] + b;
      TotalAppend(a[1..], b);
    }
  }

  lemma {:induction false} TotalOne(n: bytes)
    ensures Total([n]) == |n|
  {
    assert [n][1..] == [];
  }

  lemma {:induction false} AggregatedTotal(d: bytes, pos: nat)
    requires pos <= |d|
    ensures Total(Aggregated(d, pos)) <= |d| - pos
    decreases |d| - pos
  {
    hide U16;
    if pos + 2 <= |d| && pos + 2 + U16(d, pos) <= |d| {
      var n := U16(d, pos);
      AggregatedTotal(d, pos + 2 + n);
      TotalOne(d[pos + 2..pos + 2 + n]);
      TotalAppend([d[pos + 2..pos + 2 + n]], Aggregated(d, pos + 2 + n));
    }
  }

  lemma {:induction false} FragmentGain(c: Video, s: Depak, p: bytes)
    requires IsFragment(c, p)
    ensures Size(TakeFragment(c, s, p).next) <= Size(s) + Weight(c, p)
  {
    hide StartBit, EndBit, Total;
    var t := TakeFragment(c, s, p);
    if |t.next.pending| > |s.pending| {
      var unit := t.next.pending[|s.pending|];
      assert t.next.pending == s.pending + [unit];
      TotalAppend(s.pending, [unit]);
      TotalOne(unit);
    }
  }

  lemma {:induction false} TakeGain(c: Video, s: Depak, p: bytes)
    ensures Size(Take(c, s, p).next) <= Size(s) + Gain(c, p)
  {
    hide IsFragment, IsWhole, IsAggregate, Total, TakeFragment, Weight, Aggregated;
    TakeKinds(c, p);
    if IsWhole(c, p) {
      TotalAppend(s.pending, [p]);
      TotalOne(p);
    } else if IsAggregate(c, p) {
      TotalAppend(s.pending, Aggregated(p, HeaderLen(c)));
      AggregatedTotal(p, HeaderLen(c));
    } else if IsFragment(c, p) {
      FragmentGain(c, s, p);
    }
  }

  /** The kinds of payloads exclude each other, and an empty payload is of none. */
  lemma {:induction false} TakeKinds(c: Video, p: bytes)
    ensures IsWhole(c, p) || IsAggregate(c, p) ==> HeaderLen(c) <= |p| && p != []
    ensures IsFragment(c, p) ==> !IsWhole(c, p) && !IsAggregate(c, p) && p != []
    ensures !(IsWhole(c, p) && IsAggregate(c, p))
  {
  }

  lemma {:induction false} FeedGain(c: Video, s: Depak, p: bytes, marker: bool)
    ensures var r := FeedPayload(c, s, p, marker);
            Total(Flat(r.groups)) + Size(r.next) <= Size(s) + Gain(c, p)
  {
    hide Take, Gain;
    TakeGain(c, s, p);
    var pending := Take(c, s, p).next.pending;
    OneGroup(pending);
    NoGroups();
    NoTotal();
  }

  lemma {:induction false} FeedOutsGain(c: Video, s: Depak, outs: seq<Out>)
    ensures var r := FeedOuts(c, s, outs);
            Total(Flat(r.groups)) + Size(r.next) <= Size(s) + Gains(c, OutPayloads(outs))
    decreases |outs|
  {
    hide FeedPayload, Gain, Size, Total, Flat;
    if outs == [] {
      NoGroups();
      NoTotal();
    } else {
      var one := FeedPayload(c, s, outs[0].payload, outs[0].marker);
      var rest := FeedOuts(c, one.next, outs[1..]);
      FeedGain(c, s, outs[0].payload, outs[0].marker);
      FeedOutsGain(c, one.next, outs[1..]);
      FlatAppend(one.groups, rest.groups);
      TotalAppend(Flat(one.groups), Flat(rest.groups));
      assert OutPayloads(outs)[1..] == OutPayloads(outs[1..]);
    }
  }

  lemma {:induction false} NoTotal()
    ensures Total([]) == 0
  {
  }

  lemma {:induction false} GainsAppend(c: Video, a: seq<bytes>, b: seq<bytes>)
    ensures Gains(c, a + b) == Gains(c, a) + Gains(c, b)
  {
    hide Gain;
    if a == [] {
      assert a + b == b;
    } else {
      assert (a + b)[1..] == a[1..] + b;
      GainsAppend(c, a[1..], b);
    }
  }

  lemma {:induction false} GainsAreWeights(c: Video, ps: seq<bytes>)
    requires forall i :: 0 <= i < |ps| ==> IsFragment(c, ps[i])
    ensures Gains(c, ps) == Weights(c, ps)
  {
    hide IsFragment, Weight;
    if ps != [] {
      GainsAreWeights(c, ps[1..]);
    }
  }

  lemma {:induction false} UnitGain(c: Video, n: bytes, mtu: nat)
    requires Splittable(c, n, mtu)
    ensures !Kept(c, n) ==> Clear(c, n, mtu) && Gains(c, NalPayloads(c, n, mtu)) == 0
    ensures Kept(c, n) ==> Gains(c, NalPayloads(c, n, mtu)) <= |n|
    ensures !Clear(c, n, mtu) ==> Gains(c, NalPayloads(c, n, mtu)) < |n|
  {
    hide Fragments, Weight, Weights, IsFragment, StartBit, EndBit, IsWhole, IsAggregate;
    if Kept(c, n) && |n| <= mtu {
      assert [n][1..] == [];
      GainIsLess(c, n);
    } else if Kept(c, n) {
      FragmentsWeight(c, n, HeaderLen(c), mtu);
      forall i: nat | i < |Fragments(c, n, HeaderLen(c), mtu)|
        ensures IsFragment(c, Fragments(c, n, HeaderLen(c), mtu)[i])
      {
        FragmentShape(c, n, HeaderLen(c), mtu, i);
      }
      GainsAreWeights(c, Fragments(c, n, HeaderLen(c), mtu));
    }
  }

  lemma {:induction false} GainIsLess(c: Video, n: bytes)
    requires Kept(c, n)
    ensures if IsWhole(c, n) then Gain(c, n) == |n| else Gain(c, n) < |n|
  {
  }

  lemma {:induction false} AccessUnitGain(c: Video, ns: seq<bytes>, mtu: nat)
    requires forall n :: n in ns ==> Splittable(c, n, mtu)
    ensures Gains(c, OutPayloads(AccessUnit(c, ns, mtu))) <= Total(KeptUnits(c, ns))
    ensures (exists n :: n in ns && !Clear(c, n, mtu)) ==>
              Gains(c, OutPayloads(AccessUnit(c, ns, mtu))) < Total(KeptUnits(c, ns))
  {
    hide NalPayloads, Marked, OutPayloads, Clear, Splittable, Kept, Gain, AccessUnit;
    if ns == [] {
      AccessUnitEnd(c, ns, mtu);
      NoPayload();
    } else {
      var rest := OutPayloads(AccessUnit(c, ns[1..], mtu));
      AccessUnitGain(c, ns[1..], mtu);
      AccessUnitStep(c, ns, mtu);
      OutPayloadsAppend(NalPayloads(c, ns[0], mtu), |ns| == 1, AccessUnit(c, ns[1..], mtu));
      GainsAppend(c, NalPayloads(c, ns[0], mtu), rest);
      UnitGain(c, ns[0], mtu);
      KeptTotal(c, ns);
      assert forall n :: n in ns ==> n == ns[0] || n in ns[1..];
    }
  }

  lemma {:induction false} NoPayload()
    ensures OutPayloads([]) == []
  {
  }

  lemma {:induction false} FrameGain(c: Video, f: MediaFrame, mtu: nat)
    requires Sendable(f, mtu) && OneTrack(c, [f])
    ensures var gains := Gains(c, OutPayloads(FrameOuts(f, mtu)));
            && gains <= Total(KeptUnits(c, UnitsOf(f)))
            && ((exists n :: n in UnitsOf(f) && !Clear(c, n, mtu)) ==> gains < Total(KeptUnits(c, UnitsOf(f))))
  {
    hide Clear, Splittable, AccessUnit, Nals, AnnexBUnits, AudioPayload, Gains, OutPayloads;
    assert f in [f];
    NoPayload();
    NoGain(c);
    if f.frameType == Video {
      AccessUnitEnd(VideoOf(f), [], mtu);
      if Converts(f) {
        AccessUnitGain(c, UnitsOf(f), mtu);
      }
    }
  }

  lemma {:induction false} NoGain(c: Video)
    ensures Gains(c, []) == 0
  {
  }

  lemma {:induction false} PayloadsOfBoth(a: seq<Out>, b: seq<Out>)
    ensures OutPayloads(a + b) == OutPayloads(a) + OutPayloads(b)
  {
  }

  lemma {:induction false} RunGain(c: Video, frames: seq<MediaFrame>, mtu: nat)
    requires OneTrack(c, frames) && forall f :: f in frames ==> Sendable(f, mtu)
    ensures Gains(c, OutPayloads(RunOuts(frames, mtu))) <= Total(AllUnits(c, frames))
    ensures !AllClear(c, frames, mtu) ==> Gains(c, OutPayloads(RunOuts(frames, mtu))) < Total(AllUnits(c, frames))
    decreases |frames|
  {
    hide Clear, Sendable, FrameOuts, UnitsOf, Gains, OutPayloads, KeptUnits, Total;
    if frames == [] {
      NoPayload();
      NoGain(c);
    } else {
      var f := frames[0];
      FrameGain(c, f, mtu);
      RunGain(c, frames[1..], mtu);
      PayloadsOfBoth(FrameOuts(f, mtu), RunOuts(frames[1..], mtu));
      GainsAppend(c, OutPayloads(FrameOuts(f, mtu)), OutPayloads(RunOuts(frames[1..], mtu)));
      TotalAppend(KeptUnits(c, UnitsOf(f)), AllUnits(c, frames[1..]));
      assert forall g :: g in frames ==> g == f || g in frames[1..];
    }
  }

  /** Over every run of one video track, the depacketizer receives exactly the kept units of all frames, in order, if
    * and only if each unit sent whole has a type it takes for a whole unit. */
  lemma {:induction false} EveryUnitArrives(c: Session, sequence: nat, v: Video, frames: seq<MediaFrame>)
    requires c.Valid() && AllSendable(c, frames) && OneTrack(v, frames)
    ensures Units(FeedAll(v, EMPTY, Flat(Sends(c, sequence, frames)))) == AllUnits(v, frames)
            <==> AllClear(v, frames, c.mtu)
  {
    hide FeedAll, Sends, Grouped, FeedOuts, RunOuts, OneTrack, AllClear, Sendable, AllUnits, Total, Gains, Flat;
    if AllClear(v, frames, c.mtu) {
      RunIsGrouped(c, sequence, v, frames);
      GroupedUnits(v, [], frames);
      assert [] + AllUnits(v, frames) == AllUnits(v, frames);
    } else {
      RunIsFed(c, sequence, v, EMPTY, frames);
      var r := FeedOuts(v, EMPTY, RunOuts(frames, c.mtu));
      FeedOutsGain(v, EMPTY, RunOuts(frames, c.mtu));
      RunGain(v, frames, c.mtu);
      NoTotal();
      TotalAppend(Flat(r.groups), r.next.pending);
    }
  }

  /** A whole H.264 unit of type 24 is taken apart as an aggregation packet. */
  lemma {:induction false} UnitCanBeSplit()
    ensures var n: bytes := [0x78, 0, 1, 0x65];
            Take(Avc, EMPTY, n) == Taken(Depak([[0x65]], None), true)
  {
    var n: bytes := [0x78, 0, 1, 0x65];
    assert U16(n, 1) == 1 && n[3..4] == [0x65];
    assert Aggregated(n, 4) == [];
    assert Aggregated(n, 1) == [n[3..4]] + Aggregated(n, 4);
  }

  // ---- time and audio ----

  /** A video track runs at 90 kHz, and the receiver divides by 90: the time comes back if and only if the clock has not
    * wrapped, that is for the first 13 hours. */
  lemma {:induction false} VideoTimeReturns(timestampMs: u32)
    ensures Ticks(timestampMs, 90_000) / 90 == timestampMs <==> timestampMs * 90 < 0x1_0000_0000
  {
    var t := timestampMs * 90;
    DivMod(1000, t, 0);
    assert Ticks(timestampMs, 90_000) == t % 0x1_0000_0000;
    if t < 0x1_0000_0000 {
      DivMod(90, timestampMs, 0);
    } else {
      DivBelowProduct(t % 0x1_0000_0000, 90, timestampMs);
    }
  }

  lemma {:induction false} DivBelowProduct(n: nat, d: nat, q: nat)
    requires 0 < d && n < d * q
    ensures n / d < q
  {
    if q <= n / d {
      MulMonotone(q, n / d, d);
      assert false;
    }
  }

  lemma {:induction false} VideoTimeCanWrap()
    ensures Ticks(47_721_859, 90_000) / 90 == 0
  {
  }

  /** The sizes of at most `n` access units, from headers of 13 bits size and three bits index. */
  function AuSizes(d: bytes, pos: nat, n: nat): (r: seq<nat>)
    ensures |r| <= n && pos + 2 * |r| <= if pos <= |d| then |d| else pos
    decreases n
  {
    if n == 0 || pos + 2 > |d| then [] else [U16(d, pos) / 8 % 0x2000] + AuSizes(d, pos + 2, n - 1)
  }

  /** The access units of the given sizes, as far as the data goes. */
  function AuData(d: bytes, pos: nat, sizes: seq<nat>): seq<bytes>
    decreases |sizes|
  {
    if sizes == [] || pos + sizes[0] > |d| then []
    else [d[pos..pos + sizes[0]]] + AuData(d, pos + sizes[0], sizes[1..])
  }

  /** What the receiver makes of one audio payload. */
  function AudioUnits(d: bytes): seq<bytes> {
    if |d| < 2 then []
    else
      var sizes := AuSizes(d, 2, U16(d, 0) / 16);
      AuData(d, 2 + 2 * |sizes|, sizes)
  }

  /** `handle_audio_rtp`, without the wrapping of the units into frames. */
  method HandleAudioRtp(data: bytes) returns (units: seq<bytes>)
    ensures units == AudioUnits(data)
  {
    hide U16, AuSizes, AuData;
    if |data| < 2 {
      return [];
    }
    var sizes := ReadAuSizes(data, U16(data, 0) / 16);
    units := CutAus(data, 2 + 2 * |sizes|, sizes);
  }

  method ReadAuSizes(data: bytes, numAus: nat) returns (sizes: seq<nat>)
    ensures sizes == AuSizes(data, 2, numAus)
  {
    hide U16;
    sizes := [];
    var pos: nat, k: nat := 2, 0;
    while k < numAus
      invariant k <= numAus && AuSizes(data, 2, numAus) == sizes + AuSizes(data, pos, numAus - k)
      decreases numAus - k
    {
      if pos + 2 > |data| {
        break;
      }
      sizes := sizes + [U16(data, pos) / 8 % 0x2000];
      pos := pos + 2;
      k := k + 1;
    }
  }

  method CutAus(data: bytes, start: nat, sizes: seq<nat>) returns (units: seq<bytes>)
    ensures units == AuData(data, start, sizes)
  {
    units := [];
    var pos: nat, i: nat := start, 0;
    assert sizes[0..] == sizes;
    while i < |sizes|
      invariant i <= |sizes| && AuData(data, start, sizes) == units + AuData(data, pos, sizes[i..])
      decreases |sizes| - i
    {
      assert sizes[i..][1..] == sizes[i + 1..];
      if pos + sizes[i] > |data| {
        break;
      }
      units := units + [data[pos..pos + sizes[i]]];
      pos := pos + sizes[i];
      i := i + 1;
    }
  }

  lemma {:induction false} OneAccessUnit(raw: bytes)
    ensures var p := BE16(16) + BE16(|raw| * 8) + raw;
            AudioUnits(p) == [raw[..|raw| % 0x2000]]
  {
    var p := BE16(16) + BE16(|raw| * 8) + raw;
    var size := |raw| % 0x2000;
    assert U16(p, 0) == 16;
    AacHeaderSize(raw);
    hide BE16, U16;
    assert AuSizes(p, 4, 0) == [] && AuSizes(p, 2, 1) == [size] + AuSizes(p, 4, 0);
    assert p[4..4 + size] == raw[..size];
    assert [size][1..] == [] && AuData(p, 4, [size]) == [p[4..4 + size]] + AuData(p, 4 + size, [size][1..]);
  }

  lemma {:induction false} AacHeaderSize(raw: bytes)
    ensures var p := BE16(16) + BE16(|raw| * 8) + raw;
            U16(p, 2) / 8 % 0x2000 == |raw| % 0x2000
  {
    var p := BE16(16) + BE16(|raw| * 8) + raw;
    assert p[2] == |raw| * 8 / 0x100 % 0x100 && p[3] == |raw| * 8 % 0x100;
    EightTimes(|raw|);
  }

  /** Over every run, the packet of an AAC frame gives the receiver exactly that frame if and only if it has fewer
    * than 8192 bytes. */
  lemma {:induction false} AacRunIsReceived(c: Session, sequence: nat, frames: seq<MediaFrame>, i: nat)
    requires c.Valid() && AllSendable(c, frames) && i < |frames|
    requires frames[i].frameType == Audio && frames[i].codec == AAC && AacRawPayload(frames[i]).Ok?
    requires AacRawPayload(frames[i]).value != []
    ensures var payloads, raw := Payloads(Sends(c, sequence, frames)[i]), AacRawPayload(frames[i]).value;
            |payloads| == 1 && (AudioUnits(payloads[0]) == [raw] <==> |raw| < 0x2000)
  {
    hide Sends, Ticks, Marker, U32, FrameOuts, AudioUnits, AacRawPayload, Payloads, BE16;
    var raw := AacRawPayload(frames[i]).value;
    RunIsReassembled(c, sequence, frames, i);
    AacPayload(frames[i]);
    OneAccessUnit(raw);
    assert |raw| < 0x2000 ==> raw[..|raw| % 0x2000] == raw;
  }

  lemma {:induction false} AacPayload(f: MediaFrame)
    requires f.codec == AAC && AacRawPayload(f).Ok? && AacRawPayload(f).value != []
    ensures AudioPayload(f) == Ok(BE16(16) + BE16(|AacRawPayload(f).value| * 8) + AacRawPayload(f).value)
  {
    hide BE16;
  }
}
