/** What a receiver rebuilds from the packets of module Rtp. */
module RtpStream {
  import opened Bytes
  import opened Frames
  import opened NalUnits
  import opened Rtp
  import opened PsMux
  import opened PsMuxer
  import opened PsStream

  /** The packet payloads behind the fixed header of section 5.1 of RFC 3550. */
  function Payloads(packets: seq<bytes>): seq<bytes> {
    seq(|packets|, i requires 0 <= i < |packets| => Drop(packets[i], 12))
  }

  /** Packet `i` carries sequence number `first + i` modulo 2^16. */
  predicate Consecutive(packets: seq<bytes>, first: nat) {
    forall i :: 0 <= i < |packets| ==> 12 <= |packets[i]| && Sequence(packets[i]) == (first + i) % 0x1_0000
  }

  function OutPayloads(outs: seq<Out>): (r: seq<bytes>)
    ensures |r| == |outs|
  {
    seq(|outs|, i requires 0 <= i < |outs| => outs[i].payload)
  }

  /** Sending keeps the payloads, numbers the packets and marks as told. */
  lemma {:induction false} PacketsAreReadBack(s: Stream, sequence: nat, outs: seq<Out>)
    requires s.payloadType < 0x80
    ensures Payloads(Packets(s, sequence, outs)) == OutPayloads(outs)
    ensures Consecutive(Packets(s, sequence, outs), sequence)
    ensures forall i :: 0 <= i < |outs| ==> Marker(Packets(s, sequence, outs)[i]) == outs[i].marker
  {
    hide Sequence, Marker, Packets, U32;
    var packets := Packets(s, sequence, outs);
    forall i: nat | i < |outs|
      ensures 12 <= |packets[i]| && Sequence(packets[i]) == (sequence + i) % 0x1_0000
      ensures Marker(packets[i]) == outs[i].marker && Drop(packets[i], 12) == outs[i].payload
    {
      PacketsCarry(s, sequence, outs, i);
    }
  }

  // ---- fragmentation units ----

  /** The NAL header restored from a fragment. */
  function Restored(c: Video, p: bytes, nalType: nat): bytes
    requires HeaderLen(c) <= |p| && nalType < if c == Avc then 0x20 else 0x40
  {
    if c == Avc then [p[0] / 0x20 * 0x20 + nalType] else [p[0] / 0x80 * 0x80 + 2 * nalType + p[0] % 2, p[1]]
  }

  predicate IsFragment(c: Video, p: bytes) {
    HeaderLen(c) < |p| && NalType(c, p) == FuType(c)
  }

  /** A payload that is one whole NAL unit; the types 24 to 29 of H.264 and 48 to 50 of H.265 name other payload
    * structures, and a receiver ignores the H.264 types 0, 30 and 31. */
  predicate IsSingle(c: Video, p: bytes) {
    HeaderLen(c) <= |p| && if c == Avc then 1 <= NalType(c, p) < 24 else !(48 <= NalType(c, p) <= 50)
  }

  predicate StartBit(c: Video, p: bytes)
    requires IsFragment(c, p)
  {
    p[HeaderLen(c)] / 0x80 == 1
  }

  predicate EndBit(c: Video, p: bytes)
    requires IsFragment(c, p)
  {
    p[HeaderLen(c)] / 0x40 % 2 == 1
  }

  /** The unit once fragment `p` is added to what came before; nothing if the fragment is out of place. */
  function Extended(c: Video, p: bytes, before: Option<bytes>): Option<bytes>
    requires IsFragment(c, p)
  {
    var data := p[HeaderLen(c) + 1..];
    if StartBit(c, p) then
      if before.Some? then None
      else Some(Restored(c, p, p[HeaderLen(c)] % if c == Avc then 0x20 else 0x40) + data)
    else if before.None? then None
    else Some(before.value + data)
  }

  function Prepend(n: bytes, rest: Option<seq<bytes>>): Option<seq<bytes>> {
    match rest
    case None => None
    case Some(ns) => Some([n] + ns)
  }

  /** The receiver: the units of a payload list, or nothing if a fragment is missing or misplaced. */
  function Reassemble(c: Video, payloads: seq<bytes>, before: Option<bytes>): Option<seq<bytes>>
    decreases |payloads|
  {
    if payloads == [] then
      if before.None? then Some([]) else None
    else if !IsFragment(c, payloads[0]) then
      if before.Some? || !IsSingle(c, payloads[0]) then None
      else Prepend(payloads[0], Reassemble(c, payloads[1..], None))
    else
      match Extended(c, payloads[0], before)
      case None => None
      case Some(n) =>
        if EndBit(c, payloads[0]) then Prepend(n, Reassemble(c, payloads[1..], None))
        else Reassemble(c, payloads[1..], Some(n))
  }

  /** What the receiver holds when the sender is at offset `off` of unit `n`. */
  function Held(c: Video, n: bytes, off: nat): Option<bytes>
    requires off <= |n|
  {
    if off == HeaderLen(c) then None else Some(n[..off])
  }

  lemma {:induction false} FragmentBits(c: Video, n: bytes, off: nat, chunk: nat)
    requires HeaderLen(c) <= off < |n| && off + chunk <= |n|
    ensures var p := FuPayload(c, n, off, chunk);
            && IsFragment(c, p)
            && (StartBit(c, p) <==> off == HeaderLen(c))
            && (EndBit(c, p) <==> off + chunk == |n|)
            && p[HeaderLen(c)] % (if c == Avc then 0x20 else 0x40) == NalType(c, n)
            && Restored(c, p, NalType(c, n)) == n[..HeaderLen(c)]
            && p[HeaderLen(c) + 1..] == n[off..off + chunk]
  {
    FuPayloadFields(c, n, off, chunk);
    hide FuPayload;
    var p := FuPayload(c, n, off, chunk);
    FlagByte(NalType(c, n), off == HeaderLen(c), off + chunk == |n|);
    if c == Avc {
      assert n[..1] == [n[0]];
      AvcHeaderByte(n[0], p[0]);
    } else {
      assert n[..2] == [n[0], n[1]];
      HevcHeaderByte(n[0], p[0]);
    }
  }

  lemma {:induction false} FuPayloadFields(c: Video, n: bytes, off: nat, chunk: nat)
    requires HeaderLen(c) <= off < |n| && off + chunk <= |n|
    ensures var p := FuPayload(c, n, off, chunk);
            && p[0] == FuLead(c, n)[0]
            && (c == Hevc ==> p[1] == n[1])
            && p[HeaderLen(c)] == NalType(c, n) + (if off == HeaderLen(c) then 0x80 else 0)
                                  + (if off + chunk == |n| then 0x40 else 0)
            && p[HeaderLen(c) + 1..] == n[off..off + chunk]
  {
  }

  lemma {:induction false} FlagByte(t: nat, first: bool, end: bool)
    requires t < 0x40
    ensures var h := t + (if first then 0x80 else 0) + (if end then 0x40 else 0);
            && (h / 0x80 == 1 <==> first) && (h / 0x40 % 2 == 1 <==> end)
            && h % 0x40 == t && (t < 0x20 ==> h % 0x20 == t)
  {
  }

  lemma {:induction false} AvcHeaderByte(x: byte, y: byte)
    requires y == x / 0x20 * 0x20 + 28
    ensures y % 0x20 == 28 && y / 0x20 * 0x20 + x % 0x20 == x
  {
  }

  lemma {:induction false} HevcHeaderByte(x: byte, y: byte)
    requires y == x / 0x80 * 0x80 + 98 + x % 2
    ensures y / 2 % 0x40 == 49
    ensures y / 0x80 * 0x80 + 2 * (x / 2 % 0x40) + y % 2 == x
  {
    var h: nat, m: nat, b: nat := x as int / 0x80, x as int / 2 % 0x40, x as int % 2;
    DivMod(0x40, h, m);
    HevcDigits(x, h, m, b);
    DivMod(2, 0x40 * h + 49, b);
    DivMod(0x40, h, 49);
    DivMod(0x80, h, 98 + b);
  }

  lemma {:induction false} HevcDigits(x: byte, h: nat, m: nat, b: nat)
    requires h == x as int / 0x80 && m == x as int / 2 % 0x40 && b == x as int % 2
    ensures x as int == 0x80 * h + 2 * m + b
  {
    var half := x as int / 2;
    DivMod(0x80, half / 0x40, 2 * (half % 0x40) + b);
  }

  lemma {:induction false} ExtendedIs(c: Video, n: bytes, off: nat, chunk: nat)
    requires HeaderLen(c) <= off < |n| && off + chunk <= |n|
    ensures IsFragment(c, FuPayload(c, n, off, chunk))
    ensures EndBit(c, FuPayload(c, n, off, chunk)) <==> off + chunk == |n|
    ensures Extended(c, FuPayload(c, n, off, chunk), Held(c, n, off)) == Some(n[..off + chunk])
  {
    FragmentBits(c, n, off, chunk);
    hide FuPayload, IsFragment, StartBit, EndBit, Restored, NalType;
    assert n[..off + chunk] == n[..off] + n[off..off + chunk];
  }

  /** Fragments of one unit, from any offset on, give back the whole unit. */
  lemma {:induction false} ReassembleStep(c: Video, p: bytes, rest: seq<bytes>, before: Option<bytes>)
    requires IsFragment(c, p) && Extended(c, p, before).Some?
    ensures var n := Extended(c, p, before).value;
            Reassemble(c, [p] + rest, before)
            == if EndBit(c, p) then Prepend(n, Reassemble(c, rest, None)) else Reassemble(c, rest, Some(n))
  {
    hide IsFragment, EndBit, Extended, Prepend;
    assert ([p] + rest)[1..] == rest;
  }

  lemma {:induction false} HeldIs(c: Video, n: bytes, off: nat)
    requires HeaderLen(c) < off <= |n|
    ensures Held(c, n, off) == Some(n[..off])
  {
  }

  lemma {:induction false} FragmentsReassemble(c: Video, n: bytes, off: nat, mtu: nat, rest: seq<bytes>)
    requires HeaderLen(c) <= off < |n| && HeaderLen(c) + 1 < mtu
    ensures Reassemble(c, Fragments(c, n, off, mtu) + rest, Held(c, n, off)) == Prepend(n, Reassemble(c, rest, None))
    decreases |n| - off
  {
    hide FuPayload, IsFragment, EndBit, Extended, Fragments, Held, Reassemble, Prepend;
    var chunk := ChunkLen(c, n, off, mtu);
    var p := FuPayload(c, n, off, chunk);
    var more := Fragments(c, n, off + chunk, mtu);
    FragmentsStep(c, n, off, mtu);
    ExtendedIs(c, n, off, chunk);
    Assoc([p], more, rest);
    ReassembleStep(c, p, more + rest, Held(c, n, off));
    if off + chunk == |n| {
      assert more + rest == rest && n[..off + chunk] == n;
    } else {
      HeldIs(c, n, off + chunk);
      FragmentsReassemble(c, n, off + chunk, mtu, rest);
    }
  }

  function KeptUnits(c: Video, ns: seq<bytes>): seq<bytes> {
    if ns == [] then [] else (if Kept(c, ns[0]) then [ns[0]] else []) + KeptUnits(c, ns[1..])
  }

  /** A unit sent whole has a type that receivers take for a whole unit. */
  predicate Plain(c: Video, n: bytes, mtu: nat) {
    Kept(c, n) && |n| <= mtu ==> IsSingle(c, n)
  }

  lemma {:induction false} SingleIsNoFragment(c: Video, p: bytes)
    requires IsSingle(c, p)
    ensures !IsFragment(c, p)
  {
  }

  lemma {:induction false} NalReassembles(c: Video, n: bytes, mtu: nat, rest: seq<bytes>)
    requires Splittable(c, n, mtu) && Plain(c, n, mtu)
    ensures Reassemble(c, NalPayloads(c, n, mtu) + rest, None)
            == if Kept(c, n) then Prepend(n, Reassemble(c, rest, None)) else Reassemble(c, rest, None)
  {
    hide Fragments, IsFragment, Extended, EndBit;
    if !Kept(c, n) {
      assert [] + rest == rest;
    } else if |n| <= mtu {
      SingleIsNoFragment(c, n);
      assert ([n] + rest)[1..] == rest;
    } else {
      FragmentsReassemble(c, n, HeaderLen(c), mtu, rest);
    }
  }

  lemma {:induction false} OutPayloadsAppend(a: seq<bytes>, last: bool, b: seq<Out>)
    ensures OutPayloads(Marked(a, last) + b) == a + OutPayloads(b)
  {
  }

  /** Units that are plain come back exactly as the packetizer keeps them, in order. */
  lemma {:induction false} PlainUnitsReassemble(c: Video, ns: seq<bytes>, mtu: nat)
    requires forall n :: n in ns ==> Splittable(c, n, mtu) && Plain(c, n, mtu)
    ensures Reassemble(c, OutPayloads(AccessUnit(c, ns, mtu)), None) == Some(KeptUnits(c, ns))
  {
    hide NalPayloads, Marked, OutPayloads, Plain, Splittable, Kept;
    if ns == [] {
      AccessUnitEnd(c, ns, mtu);
      assert |OutPayloads([])| == 0;
    } else {
      PlainUnitsReassemble(c, ns[1..], mtu);
      NalReassembles(c, ns[0], mtu, OutPayloads(AccessUnit(c, ns[1..], mtu)));
      OutPayloadsAppend(NalPayloads(c, ns[0], mtu), |ns| == 1, AccessUnit(c, ns[1..], mtu));
      assert [] + KeptUnits(c, ns[1..]) == KeptUnits(c, ns[1..]);
    }
  }

  // ---- bytes a receiver can gain from a payload ----

  function Weight(c: Video, p: bytes): nat {
    if !IsFragment(c, p) then (if IsSingle(c, p) then |p| else 0)
    else |p| - HeaderLen(c) - 1 + (if StartBit(c, p) then HeaderLen(c) else 0)
  }

  function Weights(c: Video, ps: seq<bytes>): nat {
    if ps == [] then 0 else Weight(c, ps[0]) + Weights(c, ps[1..])
  }

  function Total(ns: seq<bytes>): nat {
    if ns == [] then 0 else |ns[0]| + Total(ns[1..])
  }

  lemma {:induction false} WeightsAppend(c: Video, a: seq<bytes>, b: seq<bytes>)
    ensures Weights(c, a + b) == Weights(c, a) + Weights(c, b)
  {
    if a == [] {
      assert a + b == b;
    } else {
      assert (a + b)[1..] == a[1..] + b;
      WeightsAppend(c, a[1..], b);
    }
  }

  lemma {:induction false} PrependTotal(n: bytes, rest: Option<seq<bytes>>)
    ensures rest.Some? <==> Prepend(n, rest).Some?
    ensures rest.Some? ==> Total(Prepend(n, rest).value) == |n| + Total(rest.value)
  {
  }

  lemma {:induction false} ExtendedWeight(c: Video, p: bytes, before: Option<bytes>)
    requires IsFragment(c, p) && Extended(c, p, before).Some?
    ensures |Extended(c, p, before).value| == Weight(c, p) + (if before.Some? then |before.value| else 0)
  {
  }

  /** What is reassembled weighs what the payloads weigh. */
  lemma {:induction false} ReassembleWeight(c: Video, ps: seq<bytes>, before: Option<bytes>)
    ensures Reassemble(c, ps, before).Some? ==>
              Total(Reassemble(c, ps, before).value) == Weights(c, ps) + (if before.Some? then |before.value| else 0)
    decreases |ps|
  {
    hide Extended, IsFragment, EndBit, Prepend, StartBit;
    if ps == [] {
    } else if !IsFragment(c, ps[0]) {
      ReassembleWeight(c, ps[1..], None);
      PrependTotal(ps[0], Reassemble(c, ps[1..], None));
    } else if Extended(c, ps[0], before).Some? {
      var n := Extended(c, ps[0], before).value;
      ExtendedWeight(c, ps[0], before);
      ReassembleWeight(c, ps[1..], if EndBit(c, ps[0]) then None else Some(n));
      PrependTotal(n, Reassemble(c, ps[1..], None));
    }
  }

  lemma {:induction false} FragmentsWeight(c: Video, n: bytes, off: nat, mtu: nat)
    requires HeaderLen(c) <= off <= |n| && HeaderLen(c) + 1 < mtu
    ensures off < |n| ==>
              Weights(c, Fragments(c, n, off, mtu)) == |n| - off + (if off == HeaderLen(c) then HeaderLen(c) else 0)
    decreases |n| - off
  {
    hide FuPayload, IsFragment, StartBit;
    if off < |n| {
      var chunk := ChunkLen(c, n, off, mtu);
      FragmentBits(c, n, off, chunk);
      FragmentsWeight(c, n, off + chunk, mtu);
      assert Fragments(c, n, off, mtu)[1..] == Fragments(c, n, off + chunk, mtu);
    }
  }

  lemma {:induction false} NalWeight(c: Video, n: bytes, mtu: nat)
    requires Splittable(c, n, mtu)
    ensures !Kept(c, n) ==> Plain(c, n, mtu) && Weights(c, NalPayloads(c, n, mtu)) == 0
    ensures Kept(c, n) ==> Weights(c, NalPayloads(c, n, mtu)) <= |n|
    ensures !Plain(c, n, mtu) ==> Weights(c, NalPayloads(c, n, mtu)) < |n|
  {
    hide Fragments;
    if Kept(c, n) && |n| <= mtu {
      assert [n][1..] == [];
    } else if Kept(c, n) {
      FragmentsWeight(c, n, HeaderLen(c), mtu);
    }
  }

  lemma {:induction false} AccessUnitWeight(c: Video, ns: seq<bytes>, mtu: nat)
    requires forall n :: n in ns ==> Splittable(c, n, mtu)
    ensures Weights(c, OutPayloads(AccessUnit(c, ns, mtu))) <= Total(KeptUnits(c, ns))
    ensures (exists n :: n in ns && !Plain(c, n, mtu)) ==>
              Weights(c, OutPayloads(AccessUnit(c, ns, mtu))) < Total(KeptUnits(c, ns))
  {
    hide NalPayloads, Marked, OutPayloads, Plain, Splittable, Kept, Weight;
    if ns == [] {
      AccessUnitEnd(c, ns, mtu);
      assert |OutPayloads([])| == 0;
    } else {
      var rest := OutPayloads(AccessUnit(c, ns[1..], mtu));
      AccessUnitWeight(c, ns[1..], mtu);
      AccessUnitStep(c, ns, mtu);
      OutPayloadsAppend(NalPayloads(c, ns[0], mtu), |ns| == 1, AccessUnit(c, ns[1..], mtu));
      WeightsAppend(c, NalPayloads(c, ns[0], mtu), rest);
      NalWeight(c, ns[0], mtu);
      KeptTotal(c, ns);
      assert forall n :: n in ns ==> n == ns[0] || n in ns[1..];
    }
  }

  lemma {:induction false} KeptTotal(c: Video, ns: seq<bytes>)
    requires ns != []
    ensures Total(KeptUnits(c, ns)) == (if Kept(c, ns[0]) then |ns[0]| else 0) + Total(KeptUnits(c, ns[1..]))
  {
    assert ([ns[0]] + KeptUnits(c, ns[1..]))[1..] == KeptUnits(c, ns[1..]);
    assert [] + KeptUnits(c, ns[1..]) == KeptUnits(c, ns[1..]);
  }

  /** The receiver gets back exactly the kept units if and only if each one sent whole has the type of a whole
    * unit. */
  lemma {:induction false} AccessUnitReassembles(c: Video, ns: seq<bytes>, mtu: nat)
    requires forall n :: n in ns ==> Splittable(c, n, mtu)
    ensures Reassemble(c, OutPayloads(AccessUnit(c, ns, mtu)), None) == Some(KeptUnits(c, ns))
            <==> forall n :: n in ns ==> Plain(c, n, mtu)
  {
    hide Reassemble, OutPayloads, AccessUnit, KeptUnits, Plain, Splittable;
    if forall n :: n in ns ==> Plain(c, n, mtu) {
      PlainUnitsReassemble(c, ns, mtu);
    } else {
      AccessUnitWeight(c, ns, mtu);
      ReassembleWeight(c, OutPayloads(AccessUnit(c, ns, mtu)), None);
    }
  }

  /** A whole H.264 unit of type 28 is taken for a fragment. */
  lemma {:induction false} UnitCanBeLost()
    ensures var n: bytes := [0x7c, 0x85, 0x88];
            Reassemble(Avc, OutPayloads(AccessUnit(Avc, [n], 1400)), None) != Some([n])
  {
    hide Reassemble, AccessUnit, OutPayloads;
    var n: bytes := [0x7c, 0x85, 0x88];
    assert n in [n] && !Plain(Avc, n, 1400);
    assert [n][1..] == [] && KeptUnits(Avc, [n]) == [n];
    AccessUnitReassembles(Avc, [n], 1400);
  }

  /** A fragmented unit spans at least two packets; only the first starts it and only the last ends it. */
  lemma {:induction false} FragmentShape(c: Video, n: bytes, off: nat, mtu: nat, i: nat)
    requires HeaderLen(c) <= off < |n| && HeaderLen(c) + 1 < mtu
    requires i < |Fragments(c, n, off, mtu)|
    ensures var fs := Fragments(c, n, off, mtu);
            && HeaderLen(c) + 1 < |fs[i]| <= mtu && IsFragment(c, fs[i])
            && (StartBit(c, fs[i]) <==> off == HeaderLen(c) && i == 0)
            && (EndBit(c, fs[i]) <==> i == |fs| - 1)
            && (mtu < |n| && off == HeaderLen(c) ==> 2 <= |fs|)
    decreases |n| - off
  {
    hide FuPayload, IsFragment, StartBit, EndBit;
    var chunk := ChunkLen(c, n, off, mtu);
    FragmentsStep(c, n, off, mtu);
    FragmentBits(c, n, off, chunk);
    var more := Fragments(c, n, off + chunk, mtu);
    if 0 < i {
      FragmentShape(c, n, off + chunk, mtu, i - 1);
      assert Fragments(c, n, off, mtu)[i] == more[i - 1];
    }
  }

  /** No payload exceeds the limit, and only the last packet of the access unit can carry the marker. */
  lemma {:induction false} AccessUnitShape(c: Video, ns: seq<bytes>, mtu: nat, i: nat)
    requires forall n :: n in ns ==> Splittable(c, n, mtu)
    requires i < |AccessUnit(c, ns, mtu)|
    ensures |AccessUnit(c, ns, mtu)[i].payload| <= mtu
    ensures AccessUnit(c, ns, mtu)[i].marker
            <==> i == |AccessUnit(c, ns, mtu)| - 1 && Kept(c, ns[|ns| - 1])
  {
    hide NalPayloads, Marked, Kept, Splittable;
    AccessUnitStep(c, ns, mtu);
    var first := NalPayloads(c, ns[0], mtu);
    var more := AccessUnit(c, ns[1..], mtu);
    NalPayloadsShape(c, ns[0], mtu);
    if i < |first| {
      if |ns| > 1 {
        LastKeptSends(c, ns[1..], mtu);
      }
    } else {
      AccessUnitShape(c, ns[1..], mtu, i - |first|);
    }
  }

  lemma {:induction false} NalPayloadsShape(c: Video, n: bytes, mtu: nat)
    requires Splittable(c, n, mtu)
    ensures NalPayloads(c, n, mtu) == [] <==> !Kept(c, n)
    ensures forall p :: p in NalPayloads(c, n, mtu) ==> |p| <= mtu
  {
    hide IsFragment, StartBit, EndBit, FuPayload;
    if Kept(c, n) && mtu < |n| {
      FragmentsStep(c, n, HeaderLen(c), mtu);
      var fs := Fragments(c, n, HeaderLen(c), mtu);
      forall i: nat | i < |fs|
        ensures |fs[i]| <= mtu
      {
        FragmentShape(c, n, HeaderLen(c), mtu, i);
      }
    }
  }

  lemma {:induction false} LastKeptSends(c: Video, ns: seq<bytes>, mtu: nat)
    requires ns != [] && forall n :: n in ns ==> Splittable(c, n, mtu)
    ensures Kept(c, ns[|ns| - 1]) ==> AccessUnit(c, ns, mtu) != []
  {
    hide NalPayloads, Marked, Kept, Splittable;
    AccessUnitStep(c, ns, mtu);
    if |ns| == 1 {
      NalPayloadsShape(c, ns[0], mtu);
    } else {
      LastKeptSends(c, ns[1..], mtu);
    }
  }

  /** A one-byte H.265 unit at the end of an access unit is dropped together with the marker. */
  lemma {:induction false} MarkerCanBeMissing()
    ensures var outs := AccessUnit(Hevc, [[0x40, 1], [0x42]], 1400);
            |outs| == 1 && !outs[0].marker
  {
    var a, b: bytes := [0x40, 1], [0x42];
    AccessUnitStep(Hevc, [a, b], 1400);
    assert [a, b][1..] == [b];
    AccessUnitStep(Hevc, [b], 1400);
    AccessUnitEnd(Hevc, [b][1..], 1400);
  }

  // ---- program streams over RTP ----

  datatype Session = Session(ssrc: u32, payloadType: byte, clockRate: u32, mtu: nat) {
    predicate Valid() {
      payloadType < 0x80 && 0 < mtu <= MAX_MTU
    }
  }

  function FrameBytes(out: Output): bytes {
    if out.units.Ok? then EncodeAll(out.units.value) else []
  }

  function FramePackets(c: Session, sequence: nat, timestampMs: u32, ps: bytes): seq<bytes>
    requires c.Valid()
  {
    Packets(Stream(c.ssrc, c.payloadType, Ticks(timestampMs, c.clockRate)), sequence, Marked(Chunks(ps, c.mtu), true))
  }

  /** Every frame is muxed and its program stream sent at once. */
  function SendRun(c: Session, sequence: nat, s: State, frames: seq<MediaFrame>): seq<bytes>
    requires c.Valid() && ValidAac(s.aac)
    decreases |frames|
  {
    if frames == [] then []
    else
      var out := Step(s, frames[0]);
      var packets := FramePackets(c, sequence, frames[0].timestamp, FrameBytes(out));
      packets + SendRun(c, sequence + |packets|, out.state, frames[1..])
  }

  lemma {:induction false} OutPayloadsOfMarked(ps: seq<bytes>)
    ensures OutPayloads(Marked(ps, true)) == ps
  {
  }

  lemma {:induction false} PayloadsAppend(a: seq<bytes>, b: seq<bytes>)
    ensures Payloads(a + b) == Payloads(a) + Payloads(b)
  {
  }

  lemma {:induction false} ConsecutiveAppend(a: seq<bytes>, b: seq<bytes>, first: nat)
    requires Consecutive(a, first) && Consecutive(b, first + |a|)
    ensures Consecutive(a + b, first)
  {
    hide Sequence;
    forall i | 0 <= i < |a + b|
      ensures 12 <= |(a + b)[i]| && Sequence((a + b)[i]) == (first + i) % 0x1_0000
    {
      if |a| <= i {
        assert (a + b)[i] == b[i - |a|];
      }
    }
  }

  /** One muxed payload: the pieces add up to it, none is empty or too long, and only the last is marked. */
  lemma {:induction false} FramePacketsCarry(c: Session, sequence: nat, timestampMs: u32, ps: bytes)
    requires c.Valid()
    ensures var packets := FramePackets(c, sequence, timestampMs, ps);
            && Consecutive(packets, sequence)
            && Concat(Payloads(packets)) == ps
            && (forall p :: p in Payloads(packets) ==> 0 < |p| <= c.mtu)
            && (forall i :: 0 <= i < |packets| ==> (Marker(packets[i]) <==> i == |packets| - 1))
  {
    hide Packets, Payloads, Chunks, OutPayloads, Marker, Concat;
    var s := Stream(c.ssrc, c.payloadType, Ticks(timestampMs, c.clockRate));
    var chunks := Chunks(ps, c.mtu);
    PacketsAreReadBack(s, sequence, Marked(chunks, true));
    OutPayloadsOfMarked(chunks);
    ChunksConcat(ps, c.mtu);
  }

  lemma {:induction false} SendRunCarries(c: Session, sequence: nat, s: State, frames: seq<MediaFrame>)
    requires c.Valid() && ValidAac(s.aac)
    ensures var packets := SendRun(c, sequence, s, frames);
            && Consecutive(packets, sequence)
            && Concat(Payloads(packets)) == EncodeAll(Run(s, frames).units)
            && (forall p :: p in Payloads(packets) ==> 0 < |p| <= c.mtu)
    decreases |frames|
  {
    hide Step, FramePackets, Payloads, Consecutive, Encode, ValidAac;
    if frames == [] {
      assert |Payloads([])| == 0 by { PayloadsEmpty(); }
      ConsecutiveEmpty(sequence);
    } else {
      var out := Step(s, frames[0]);
      var packets := FramePackets(c, sequence, frames[0].timestamp, FrameBytes(out));
      FramePacketsCarry(c, sequence, frames[0].timestamp, FrameBytes(out));
      SendRunCarries(c, sequence + |packets|, out.state, frames[1..]);
      var rest := SendRun(c, sequence + |packets|, out.state, frames[1..]);
      ConsecutiveAppend(packets, rest, sequence);
      PayloadsAppend(packets, rest);
      ConcatAppend(Payloads(packets), Payloads(rest));
      EncodeAllAppend(if out.units.Ok? then out.units.value else [], Run(out.state, frames[1..]).units);
    }
  }

  lemma {:induction false} PayloadsEmpty()
    ensures Payloads([]) == []
  {
  }

  lemma {:induction false} ConsecutiveEmpty(first: nat)
    ensures Consecutive([], first)
  {
  }

  /** Muxing, sending, stripping and demuxing gives back, over every run, the elementary stream of every frame that
    * has one, frame by frame and in order, under its stream and its time. */
  lemma {:induction false} PsOverRtp(c: Session, sequence: nat, s: State, frames: seq<MediaFrame>)
    requires c.Valid()
    requires KnownTracks(s.tracks) && ValidAac(s.aac) && s.mapPending
    ensures var r := FeedPieces([], map[], Payloads(SendRun(c, sequence, s, frames)));
            && r.buf == [] && r.pes == PesOf(Run(s, frames).units)
            && CarryAll(r.pes, Contributions(frames, s.aac)) && Joined(r.pes) == DataOf(Contributions(frames, s.aac))
  {
    hide SendRun, Payloads, Consecutive, FeedPieces, PesOf, Run, Concat, EncodeAll, KnownTracks, ValidAac;
    hide Contributions, CarryAll, Joined, DataOf;
    SendRunCarries(c, sequence, s, frames);
    MuxedRunsRoundTrip(s, frames, Payloads(SendRun(c, sequence, s, frames)));
  }
}
