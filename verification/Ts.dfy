/** MPEG-TS packets (crates/hls/src/muxer.rs; section 2.4.3 of ISO/IEC 13818-1). */
module Ts {
  import opened Bytes

  const SIZE: nat := 188
  const ROOM: nat := 184

  const PAT_PID: nat := 0
  const PMT_PID: nat := 4096
  const VIDEO_PID: nat := 256
  const AUDIO_PID: nat := 257

  function Fill(n: nat): (r: bytes)
    ensures |r| == n
  {
    seq(n, i => 0xff)
  }

  /** The four bytes before the adaptation field; `control` says what follows them. */
  function PacketHead(pid: nat, start: bool, control: nat, continuity: nat): (r: bytes)
    requires control < 4
    ensures |r| == 4
  {
    [0x47, pid / 0x100 % 0x20 + (if start then 0x40 else 0), pid % 0x100, control * 0x10 + continuity % 0x10]
  }

  function Control(adaptation: bytes, payload: bytes): (r: nat)
    ensures 0 < r < 4
  {
    if adaptation != [] && payload != [] then 3 else if adaptation != [] then 2 else 1
  }

  /** A packet: what does not fit is dropped, what is missing is 0xff. */
  function Packet(pid: nat, adaptation: bytes, payload: bytes, start: bool, continuity: nat): (r: bytes)
    ensures |r| == SIZE
  {
    PacketHead(pid, start, Control(adaptation, payload), continuity) + (adaptation + payload + Fill(ROOM))[..ROOM]
  }

  // ---- filling the packet in place ----

  /** `s` with `src` written over it from `pos` on, as far as there is room. */
  function Overwritten(s: bytes, pos: nat, src: bytes): (r: bytes)
    requires pos <= |s|
    ensures |r| == |s|
  {
    var n := if pos + |src| <= |s| then |src| else |s| - pos;
    s[..pos] + src[..n] + s[pos + n..]
  }

  method CopyInto(pkt: array<byte>, pos: nat, src: bytes) returns (next: nat)
    requires pos <= pkt.Length
    modifies pkt
    ensures next == if pos + |src| <= pkt.Length then pos + |src| else pkt.Length
    ensures pkt[..] == Overwritten(old(pkt[..]), pos, src)
  {
    next := pos;
    var k := 0;
    while k < |src|
      invariant k <= |src| && next == if pos + k <= pkt.Length then pos + k else pkt.Length
      invariant forall j :: 0 <= j < pos ==> pkt[j] == old(pkt[j])
      invariant forall j :: pos <= j < next ==> pkt[j] == src[j - pos]
      invariant forall j :: next <= j < pkt.Length ==> pkt[j] == old(pkt[j])
    {
      if next < pkt.Length {
        pkt[next] := src[k];
        next := next + 1;
      }
      k := k + 1;
    }
  }

  method NewPacket(pid: nat, start: bool, control: nat, continuity: nat) returns (pkt: array<byte>)
    requires control < 4
    ensures fresh(pkt) && pkt.Length == SIZE && pkt[..] == PacketHead(pid, start, control, continuity) + Fill(ROOM)
  {
    pkt := new byte[SIZE](i => 0xff);
    pkt[0] := 0x47;
    pkt[1] := pid / 0x100 % 0x20 + if start then 0x40 else 0;
    pkt[2] := pid % 0x100;
    pkt[3] := control * 0x10 + continuity % 0x10;
  }

  method WritePacketWith(pid: nat, adaptation: bytes, payload: bytes, start: bool, continuity: nat)
    returns (out: bytes, next: nat)
    ensures out == Packet(pid, adaptation, payload, start, continuity)
    ensures next == (continuity + 1) % 0x10
  {
    hide Fill, PacketHead, Overwritten;
    var control := 1;
    if adaptation != [] && payload != [] {
      control := 3;
    } else if adaptation != [] {
      control := 2;
    }
    var pkt := NewPacket(pid, start, control, continuity);
    next := (continuity + 1) % 0x10;
    var pos := CopyInto(pkt, 4, adaptation);
    var end := CopyInto(pkt, pos, payload);
    out := pkt[..];
    FilledIs(PacketHead(pid, start, control, continuity), adaptation, payload, pos);
  }

  lemma {:induction false} FilledIs(head: bytes, a: bytes, p: bytes, pos: nat)
    requires |head| == 4 && pos == if 4 + |a| <= SIZE then 4 + |a| else SIZE
    ensures Overwritten(Overwritten(head + Fill(ROOM), 4, a), pos, p) == head + (a + p + Fill(ROOM))[..ROOM]
  {
    var fill := Fill(ROOM);
    if |a| <= ROOM {
      var one := Overwritten(head + fill, 4, a);
      assert one == head + a + fill[|a|..];
    } else {
      assert Overwritten(head + fill, 4, a) == head + a[..ROOM];
    }
  }

  method WritePacket(pid: nat, payload: bytes, start: bool, continuity: nat) returns (out: bytes, next: nat)
    ensures out == Packet(pid, [], payload, start, continuity)
    ensures next == (continuity + 1) % 0x10
  {
    out, next := WritePacketWith(pid, [], payload, start, continuity);
  }

  // ---- a PES packet over TS packets ----

  function PcrBytes(pcr: nat): (r: bytes)
    ensures |r| == 6
  {
    var base, ext := pcr / 300, pcr % 300;
    var low: byte := ext % 0x100;
    [base / 0x200_0000 % 0x100, base / 0x2_0000 % 0x100, base / 0x200 % 0x100, base / 2 % 0x100,
     base % 2 * 0x80 + 0x7e, if ext / 0x100 % 2 == 1 && low % 2 == 0 then low + 1 else low]
  }

  /** A field of exactly `pad` bytes without flags. */
  function Stuffing(pad: nat): (r: bytes)
    requires 0 < pad <= ROOM
    ensures |r| == pad && r[0] == pad - 1
  {
    [pad - 1] + if pad == 1 then [] else [0] + Fill(pad - 2)
  }

  /** The adaptation field of the first packet of a PES packet of `n` bytes. */
  function FirstField(n: nat, randomAccess: bool, pcr: nat): (r: bytes)
    ensures |r| == if n < ROOM then ROOM - n else if randomAccess then 2 else 0
    ensures r != [] ==> r[0] == |r| - 1
  {
    if n < ROOM then
      var pad := ROOM - n;
      if randomAccess && 8 <= pad then [pad - 1, 0x50] + PcrBytes(pcr) + Fill(pad - 8) else Stuffing(pad)
    else if randomAccess then [1, 0x40]
    else []
  }

  function NextField(left: nat): (r: bytes)
    requires 0 < left
    ensures |r| == if left < ROOM then ROOM - left else 0
    ensures r != [] ==> r[0] == |r| - 1
  {
    if left < ROOM then Stuffing(ROOM - left) else []
  }

  function Following(pid: nat, pes: bytes, off: nat, continuity: nat): seq<bytes>
    requires off <= |pes|
    decreases |pes| - off
  {
    if off == |pes| then []
    else
      var field := NextField(|pes| - off);
      var n := ROOM - |field|;
      [Packet(pid, field, pes[off..off + n], false, continuity)] + Following(pid, pes, off + n, continuity + 1)
  }

  function PesPackets(pid: nat, pes: bytes, randomAccess: bool, continuity: nat, pcr: nat): seq<bytes> {
    var field := FirstField(|pes|, randomAccess, pcr);
    var n := ROOM - |field|;
    [Packet(pid, field, pes[..n], true, continuity)] + Following(pid, pes, n, continuity + 1)
  }

  lemma {:induction false} PacketWraps(pid: nat, a: bytes, p: bytes, start: bool, continuity: nat)
    ensures Packet(pid, a, p, start, continuity % 0x10) == Packet(pid, a, p, start, continuity)
  {
    hide Fill;
  }

  lemma {:induction false} FollowingStep(pid: nat, pes: bytes, off: nat, continuity: nat)
    requires off < |pes|
    ensures var field := NextField(|pes| - off);
            var n := ROOM - |field|;
            Following(pid, pes, off, continuity)
            == [Packet(pid, field, pes[off..off + n], false, continuity)] + Following(pid, pes, off + n, continuity + 1)
  {
    hide Packet, NextField;
  }

  lemma {:induction false} PesPacketsIs(pid: nat, pes: bytes, randomAccess: bool, continuity: nat, pcr: nat)
    ensures var field := FirstField(|pes|, randomAccess, pcr);
            var n := ROOM - |field|;
            && 0 <= n <= |pes|
            && PesPackets(pid, pes, randomAccess, continuity, pcr)
               == [Packet(pid, field, pes[..n], true, continuity)] + Following(pid, pes, n, continuity + 1)
  {
    hide Packet, Following;
  }

  /** Up to `off` the packets `done` are written behind `sent`, and the rest of `all` is still to come. */
  ghost predicate Writing(w: Pes, all: seq<bytes>, done: seq<bytes>, sent: bytes, out: bytes, off: nat) {
    && off <= |w.pes| && all == done + Following(w.pid, w.pes, off, w.continuity + |done|)
    && out == sent + Concat(done)
  }

  /** A PES packet on its way into packets of one PID. */
  datatype Pes = Pes(pid: nat, pes: bytes, continuity: nat)

  lemma {:induction false} WriteFirst(w: Pes, randomAccess: bool, pcr: nat, sent: bytes, p: bytes)
    requires var field := FirstField(|w.pes|, randomAccess, pcr);
             ROOM - |field| <= |w.pes| && p == Packet(w.pid, field, w.pes[..ROOM - |field|], true, w.continuity)
    ensures Writing(w, PesPackets(w.pid, w.pes, randomAccess, w.continuity, pcr), [p], sent, sent + p,
                    ROOM - |FirstField(|w.pes|, randomAccess, pcr)|)
  {
    hide Packet, Following, FirstField, Concat;
    PesPacketsIs(w.pid, w.pes, randomAccess, w.continuity, pcr);
    ConcatOne(p);
  }

  lemma {:induction false} WriteStep(
      w: Pes, all: seq<bytes>, done: seq<bytes>, sent: bytes, out: bytes, off: nat, p: bytes)
    requires Writing(w, all, done, sent, out, off) && off < |w.pes|
    requires var field := NextField(|w.pes| - off);
             var n := ROOM - |field|;
             off + n <= |w.pes| && p == Packet(w.pid, field, w.pes[off..off + n], false, w.continuity + |done|)
    ensures Writing(w, all, done + [p], sent, out + p, off + (ROOM - |NextField(|w.pes| - off)|))
  {
    hide Packet, Following, NextField, Concat;
    var n := ROOM - |NextField(|w.pes| - off)|;
    FollowingStep(w.pid, w.pes, off, w.continuity + |done|);
    Snoc(done, p, Following(w.pid, w.pes, off + n, w.continuity + |done| + 1));
    ConcatAppend(done, [p]);
    ConcatOne(p);
    Assoc(sent, Concat(done), p);
  }

  lemma {:induction false} WriteLast(w: Pes, all: seq<bytes>, done: seq<bytes>, sent: bytes, out: bytes)
    requires Writing(w, all, done, sent, out, |w.pes|)
    ensures out == sent + Concat(all) && done == all
  {
    hide Following, Concat;
    FollowingEnd(w.pid, w.pes, w.continuity + |done|);
    assert done + [] == done;
  }

  /** One continuation packet from `off` on; `k` is the counter before it is reduced modulo 16. */
  method NextPacket(pid: nat, pes: bytes, off: nat, ghost k: nat, cc: nat) returns (p: bytes, c: nat, n: nat)
    requires off < |pes| && cc == k % 0x10
    ensures n == ROOM - |NextField(|pes| - off)| && off + n <= |pes|
    ensures p == Packet(pid, NextField(|pes| - off), pes[off..off + n], false, k)
    ensures c == (k + 1) % 0x10
  {
    hide Packet, NextField;
    FieldFits(pes, off);
    var field := NextFieldBytes(|pes| - off);
    n := ROOM - |field|;
    PacketWraps(pid, field, pes[off..off + n], false, k);
    p, c := WritePacketWith(pid, field, pes[off..off + n], false, cc);
  }

  /** `write_pes_to_ts`: appends to `sent` and advances the counter by the number of packets. */
  method WritePesPackets(sent: bytes, pid: nat, pes: bytes, randomAccess: bool, continuity: nat, pcr: nat)
    returns (out: bytes, next: nat)
    ensures out == sent + Concat(PesPackets(pid, pes, randomAccess, continuity, pcr))
    ensures next == (continuity + |PesPackets(pid, pes, randomAccess, continuity, pcr)|) % 0x10
  {
    hide *;
    PesPacketsIs(pid, pes, randomAccess, continuity, pcr);
    ghost var w := Pes(pid, pes, continuity);
    ghost var all := PesPackets(pid, pes, randomAccess, continuity, pcr);
    var field := FirstFieldBytes(|pes|, randomAccess, pcr);
    var offset := ROOM - |field|;
    var pkt, cc := WritePacketWith(pid, field, pes[..offset], true, continuity);
    WriteFirst(w, randomAccess, pcr, sent, pkt);
    ghost var done := [pkt];
    out := sent + pkt;
    while offset < |pes|
      invariant offset <= |pes| && Writing(w, all, done, sent, out, offset)
      invariant cc == (continuity + |done|) % 0x10
    {
      FieldFits(pes, offset);
      var p, c, n := NextPacket(pid, pes, offset, continuity + |done|, cc);
      WriteStep(w, all, done, sent, out, offset, p);
      out, cc := out + p, c;
      done := done + [p];
      offset := offset + n;
    }
    WriteLast(w, all, done, sent, out);
    next := cc;
  }

  method FirstFieldBytes(n: nat, randomAccess: bool, pcr: nat) returns (field: bytes)
    ensures field == FirstField(n, randomAccess, pcr)
  {
    hide Fill, PcrBytes;
    var first := if n < ROOM then n else ROOM;
    var pad := ROOM - first;
    field := [];
    if pad > 0 || randomAccess {
      if randomAccess && pad >= 8 {
        field := [pad - 1, 0x50] + PcrBytes(pcr) + Fill(pad - 8);
      } else if pad > 0 {
        field := [pad - 1];
        if pad > 1 {
          field := field + ([0] + Fill(pad - 2));
        }
      } else {
        field := [1, 0x40];
      }
    }
  }

  method NextFieldBytes(left: nat) returns (field: bytes)
    requires 0 < left
    ensures field == NextField(left)
  {
    var chunk := if left < ROOM then left else ROOM;
    var pad := ROOM - chunk;
    field := [];
    if pad > 0 {
      field := [pad - 1];
      if pad > 1 {
        field := field + ([0] + Fill(pad - 2));
      }
    }
  }

  lemma {:induction false} FollowingEnd(pid: nat, pes: bytes, continuity: nat)
    ensures Following(pid, pes, |pes|, continuity) == []
  {
  }

  lemma {:induction false} ConcatOne(p: bytes)
    ensures Concat([p]) == p
  {
    assert [p][1..] == [];
  }

  // ---- what a receiver reads ----

  function Pid(p: bytes): nat
    requires |p| == SIZE
  {
    p[1] as int % 0x20 * 0x100 + p[2]
  }

  predicate Start(p: bytes)
    requires |p| == SIZE
  {
    p[1] / 0x40 % 2 == 1
  }

  function Continuity(p: bytes): nat
    requires |p| == SIZE
  {
    p[3] % 0x10
  }

  /** The payload behind the adaptation field, if the packet has one. */
  function PayloadOf(p: bytes): bytes
    requires |p| == SIZE
  {
    var control := p[3] / 0x10 % 4;
    if control == 1 then p[4..]
    else if control == 3 then Drop(p, 5 + p[4] as int)
    else []
  }

  /** The random access flag of the adaptation field. */
  predicate RandomAccess(p: bytes)
    requires |p| == SIZE
  {
    p[3] / 0x20 % 2 == 1 && 0 < p[4] && p[5] / 0x40 % 2 == 1
  }

  predicate WellFormedField(a: bytes, p: bytes) {
    |a| + |p| == ROOM && (a != [] ==> a[0] == |a| - 1)
  }

  lemma {:induction false} PacketBytes(pid: nat, a: bytes, p: bytes, start: bool, continuity: nat)
    requires WellFormedField(a, p)
    ensures var t := Packet(pid, a, p, start, continuity);
            && t[..4] == PacketHead(pid, start, Control(a, p), continuity) && t[4..] == a + p
  {
    hide PacketHead;
    assert (a + p + Fill(ROOM))[..ROOM] == a + p;
  }

  lemma {:induction false} PacketIsRead(pid: nat, a: bytes, p: bytes, start: bool, continuity: nat)
    requires WellFormedField(a, p) && pid < 0x2000
    ensures var t := Packet(pid, a, p, start, continuity);
            && t[0] == 0x47 && Pid(t) == pid && (Start(t) <==> start) && Continuity(t) == continuity % 0x10
            && PayloadOf(t) == p && (a == [] || a[0] == 0 ==> !RandomAccess(t))
            && (1 < |a| ==> (RandomAccess(t) <==> a[1] / 0x40 % 2 == 1))
  {
    PacketBytes(pid, a, p, start, continuity);
    HeadBytes(pid, start, Control(a, p), continuity);
    hide PacketHead, Packet;
    var t := Packet(pid, a, p, start, continuity);
    var h := t[..4];
    assert t[0] == h[0] && t[1] == h[1] && t[2] == h[2] && t[3] == h[3];
    assert a != [] ==> t[4] == t[4..][0] == a[0];
    assert 1 < |a| ==> t[5] == t[4..][1] == a[1];
    assert t[4 + |a|..] == t[4..][|a|..] == p;
  }

  lemma {:induction false} HeadBytes(pid: nat, start: bool, control: nat, continuity: nat)
    requires pid < 0x2000 && control < 4
    ensures var h := PacketHead(pid, start, control, continuity);
            && h[0] == 0x47 && h[1] as int % 0x20 * 0x100 + h[2] == pid && (h[1] / 0x40 % 2 == 1 <==> start)
            && h[3] % 0x10 == continuity % 0x10 && h[3] / 0x10 % 4 == control && h[3] / 0x20 % 2 == control / 2
  {
    var top := pid / 0x100;
    StartDigits(top, if start then 1 else 0);
    ControlDigits(control, continuity % 0x10);
  }

  lemma {:induction false} StartDigits(top: nat, flag: nat)
    requires top < 0x20 && flag < 2
    ensures (top + flag * 0x40) % 0x20 == top && (top + flag * 0x40) / 0x40 % 2 == flag
  {
    DivMod(0x20, 2 * flag, top);
    DivMod(0x40, flag, top);
  }

  lemma {:induction false} ControlDigits(control: nat, c: nat)
    requires control < 4 && c < 0x10
    ensures var b := control * 0x10 + c;
            b % 0x10 == c && b / 0x10 % 4 == control && b / 0x20 % 2 == control / 2
  {
    DivMod(0x10, control, c);
    DivMod(0x20, control / 2, control % 2 * 0x10 + c);
  }

  function PayloadsOf(ps: seq<bytes>): seq<bytes>
    requires forall p :: p in ps ==> |p| == SIZE
  {
    seq(|ps|, i requires 0 <= i < |ps| => assert ps[i] in ps; PayloadOf(ps[i]))
  }

  /** Packet `i` has the PID, its number from `continuity` on modulo 16, and starts a PES packet if `i` is `first`. */
  ghost predicate Numbered(ps: seq<bytes>, pid: nat, continuity: nat, first: int) {
    forall i :: 0 <= i < |ps| ==>
      && |ps[i]| == SIZE && ps[i][0] == 0x47 && Pid(ps[i]) == pid && (Start(ps[i]) <==> i == first)
      && Continuity(ps[i]) == (continuity + i) % 0x10
  }

  lemma {:induction false} NumberedPrepend(p: bytes, ps: seq<bytes>, pid: nat, continuity: nat, start: bool)
    requires |p| == SIZE && p[0] == 0x47 && Pid(p) == pid && (Start(p) <==> start) && Continuity(p) == continuity % 0x10
    requires Numbered(ps, pid, continuity + 1, -1)
    ensures Numbered([p] + ps, pid, continuity, if start then 0 else -1)
  {
    hide Pid, Start, Continuity;
    forall i | 0 <= i < |[p] + ps|
      ensures var q := ([p] + ps)[i];
              && |q| == SIZE && q[0] == 0x47 && Pid(q) == pid
              && (Start(q) <==> i == if start then 0 else -1) && Continuity(q) == (continuity + i) % 0x10
    {
      if i > 0 {
        assert ([p] + ps)[i] == ps[i - 1];
      }
    }
  }

  lemma {:induction false} PayloadsPrepend(p: bytes, ps: seq<bytes>)
    requires |p| == SIZE && forall q :: q in ps ==> |q| == SIZE
    ensures Concat(PayloadsOf([p] + ps)) == PayloadOf(p) + Concat(PayloadsOf(ps))
  {
    hide PayloadOf;
    assert PayloadsOf([p] + ps)[1..] == PayloadsOf(ps);
  }

  lemma {:induction false} NumberedSizes(ps: seq<bytes>, pid: nat, continuity: nat, first: int)
    requires Numbered(ps, pid, continuity, first)
    ensures forall p :: p in ps ==> |p| == SIZE
  {
  }

  lemma {:induction false} FieldFits(pes: bytes, off: nat)
    requires off < |pes|
    ensures var field := NextField(|pes| - off);
            var n := ROOM - |field|;
            0 < n && off + n <= |pes| && WellFormedField(field, pes[off..off + n])
  {
  }

  /** Packets of one PID, none of which starts a PES packet, carry the data. */
  ghost predicate CarryOn(ps: seq<bytes>, pid: nat, continuity: nat, data: bytes) {
    && Numbered(ps, pid, continuity, -1) && (forall p :: p in ps ==> |p| == SIZE)
    && Concat(PayloadsOf(ps)) == data
  }

  lemma {:induction false} NothingFollows(pid: nat, pes: bytes, continuity: nat)
    ensures CarryOn(Following(pid, pes, |pes|, continuity), pid, continuity, [])
  {
    FollowingEnd(pid, pes, continuity);
    hide Following;
    NoPayloads();
  }

  /** One more packet in front of packets that carry the rest. */
  lemma {:induction false} FollowingGrows(pid: nat, pes: bytes, off: nat, continuity: nat)
    requires off < |pes| && pid < 0x2000
    requires var n := ROOM - |NextField(|pes| - off)|;
             && off + n <= |pes|
             && CarryOn(Following(pid, pes, off + n, continuity + 1), pid, continuity + 1, pes[off + n..])
    ensures CarryOn(Following(pid, pes, off, continuity), pid, continuity, pes[off..])
  {
    hide Packet, PayloadOf, Pid, Start, Continuity, Concat, RandomAccess, Following, Numbered, PayloadsOf, Stuffing;
    hide NextField, WellFormedField;
    var field := NextField(|pes| - off);
    var n := ROOM - |field|;
    var p := Packet(pid, field, pes[off..off + n], false, continuity);
    var rest := Following(pid, pes, off + n, continuity + 1);
    FieldFits(pes, off);
    FollowingStep(pid, pes, off, continuity);
    PacketIsRead(pid, field, pes[off..off + n], false, continuity);
    NumberedPrepend(p, rest, pid, continuity, false);
    NumberedSizes([p] + rest, pid, continuity, -1);
    PayloadsPrepend(p, rest);
    assert pes[off..] == pes[off..off + n] + pes[off + n..];
  }

  lemma {:induction false} FollowingIsRead(pid: nat, pes: bytes, off: nat, continuity: nat)
    requires off <= |pes| && pid < 0x2000
    ensures CarryOn(Following(pid, pes, off, continuity), pid, continuity, pes[off..])
    decreases |pes| - off
  {
    hide *;
    if off == |pes| {
      NothingFollows(pid, pes, continuity);
      assert pes[off..] == [];
    } else {
      FieldFits(pes, off);
      FollowingIsRead(pid, pes, off + (ROOM - |NextField(|pes| - off)|), continuity + 1);
      FollowingGrows(pid, pes, off, continuity);
    }
  }

  lemma {:induction false} NoPayloads()
    ensures Concat(PayloadsOf([])) == []
  {
  }

  /** The packets of a PES packet carry exactly its bytes; only the first starts it; the counter runs on. */
  lemma {:induction false} PesIsRead(pid: nat, pes: bytes, randomAccess: bool, continuity: nat, pcr: nat)
    requires pid < 0x2000
    ensures var ps := PesPackets(pid, pes, randomAccess, continuity, pcr);
            && ps != [] && Numbered(ps, pid, continuity, 0) && (forall p :: p in ps ==> |p| == SIZE)
            && Concat(PayloadsOf(ps)) == pes
  {
    hide Packet, PayloadOf, Pid, Start, Continuity, Concat, RandomAccess, FirstField, Following;
    var field := FirstField(|pes|, randomAccess, pcr);
    var n := ROOM - |field|;
    var p := Packet(pid, field, pes[..n], true, continuity);
    var rest := Following(pid, pes, n, continuity + 1);
    FollowingIsRead(pid, pes, n, continuity + 1);
    PacketIsRead(pid, field, pes[..n], true, continuity);
    NumberedPrepend(p, rest, pid, continuity, true);
    NumberedSizes([p] + rest, pid, continuity, 0);
    PayloadsPrepend(p, rest);
    assert pes == pes[..n] + pes[n..];
  }

  /** The first packet announces random access exactly when it was asked for and the padding is not between one and
    * seven bytes: then the field has no room for the clock and the flag is dropped with it. */
  lemma {:induction false} RandomAccessFlag(pid: nat, pes: bytes, randomAccess: bool, continuity: nat, pcr: nat)
    requires pid < 0x2000
    ensures RandomAccess(PesPackets(pid, pes, randomAccess, continuity, pcr)[0])
            <==> randomAccess && !(ROOM - 8 < |pes| < ROOM)
  {
    hide Packet, PayloadOf, Pid, Start, Continuity, Concat, Following, RandomAccess, PcrBytes;
    var field := FirstField(|pes|, randomAccess, pcr);
    PacketIsRead(pid, field, pes[..ROOM - |field|], true, continuity);
    if |pes| < ROOM && !(randomAccess && 8 <= ROOM - |pes|) {
      var pad := ROOM - |pes|;
      assert pad > 1 ==> field[1] == 0;
    }
  }

  /** A key frame whose PES packet has 180 bytes is not announced. */
  lemma {:induction false} RandomAccessCanBeLost()
    ensures var pes: bytes := seq(180, i => 0);
            !RandomAccess(PesPackets(0x100, pes, true, 0, 0)[0])
  {
    hide PesPackets, RandomAccess;
    RandomAccessFlag(0x100, seq(180, i => 0), true, 0, 0);
  }
}
