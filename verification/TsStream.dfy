/** Whole runs of the live MPEG-TS muxer as a receiver sees them. */
module TsStream {
  import opened Bytes
  import opened Frames
  import opened Ts
  import opened LiveTs
  import Crc
  import Bits
  import PsMux
  import PsDemux

  const PIDS: set<nat> := {PAT_PID, PMT_PID, VIDEO_PID, AUDIO_PID}

  predicate Whole(ps: seq<bytes>) {
    forall i :: 0 <= i < |ps| ==> |ps[i]| == SIZE && ps[i][0] == 0x47
  }

  /** The packets with a given PID. */
  function Count(ps: seq<bytes>, pid: nat): nat
    requires Whole(ps)
  {
    if ps == [] then 0 else Count(ps[..|ps| - 1], pid) + if Pid(ps[|ps| - 1]) == pid then 1 else 0
  }

  /** The writer's counters are the packet counts so far, modulo 16. */
  ghost predicate Tracked(c: Counters, sent: seq<bytes>) {
    Whole(sent) && forall pid :: pid in PIDS ==> CounterOf(c, pid) == Count(sent, pid) % 0x10
  }

  /** Behind `sent`, each packet carries the number of earlier packets with its PID, modulo 16. */
  ghost predicate Continuous(sent: seq<bytes>, ps: seq<bytes>) {
    && Whole(sent) && Whole(ps)
    && forall i :: 0 <= i < |ps| ==>
         && Pid(ps[i]) in PIDS
         && Whole(sent + ps[..i]) && Continuity(ps[i]) == Count(sent + ps[..i], Pid(ps[i])) % 0x10
  }

  lemma {:induction false} WholeAppend(a: seq<bytes>, b: seq<bytes>)
    requires Whole(a) && Whole(b)
    ensures Whole(a + b) && forall i :: 0 <= i <= |b| ==> Whole(a + b[..i])
  {
  }

  /** Packets of one PID raise its count and no other. */
  lemma {:induction false} CountOne(sent: seq<bytes>, ps: seq<bytes>, pid: nat, i: nat, other: nat)
    requires Whole(sent) && Whole(ps) && i <= |ps| && forall k :: 0 <= k < |ps| ==> Pid(ps[k]) == pid
    ensures Whole(sent + ps[..i])
    ensures Count(sent + ps[..i], other) == Count(sent, other) + if other == pid then i else 0
    decreases i
  {
    hide Pid;
    WholeAppend(sent, ps);
    if i == 0 {
      assert sent + ps[..0] == sent;
    } else {
      var all := sent + ps[..i];
      assert all[..|all| - 1] == sent + ps[..i - 1] && all[|all| - 1] == ps[i - 1];
      CountOne(sent, ps, pid, i - 1, other);
    }
  }

  /** Numbered packets continue the count of their PID. */
  lemma {:induction false} NumberedContinues(sent: seq<bytes>, ps: seq<bytes>, pid: nat, n: nat, first: int)
    requires Whole(sent) && pid in PIDS && Numbered(ps, pid, n, first) && n % 0x10 == Count(sent, pid) % 0x10
    ensures Continuous(sent, ps)
    ensures forall other :: Count(sent + ps, other) == Count(sent, other) + if other == pid then |ps| else 0
  {
    hide Pid, Continuity, Start, Count;
    WholeAppend(sent, ps);
    forall i: nat | i < |ps|
      ensures Whole(sent + ps[..i]) && Continuity(ps[i]) == Count(sent + ps[..i], Pid(ps[i])) % 0x10
    {
      CountOne(sent, ps, pid, i, pid);
      SameResidue(n, Count(sent, pid), i);
    }
    forall other: nat
      ensures Count(sent + ps, other) == Count(sent, other) + if other == pid then |ps| else 0
    {
      CountOne(sent, ps, pid, |ps|, other);
      assert ps[..|ps|] == ps;
    }
  }

  lemma {:induction false} SameResidue(a: nat, b: nat, i: nat)
    requires a % 0x10 == b % 0x10
    ensures (a + i) % 0x10 == (b + i) % 0x10
  {
  }

  lemma {:induction false} ContinuousAppend(sent: seq<bytes>, a: seq<bytes>, b: seq<bytes>)
    requires Continuous(sent, a) && Continuous(sent + a, b)
    ensures Continuous(sent, a + b)
  {
    hide Pid, Continuity, Count;
    WholeAppend(a, b);
    WholeAppend(sent, a + b);
    forall i | 0 <= i < |a + b|
      ensures var p := (a + b)[i];
              && Pid(p) in PIDS && Whole(sent + (a + b)[..i])
              && Continuity(p) == Count(sent + (a + b)[..i], Pid(p)) % 0x10
    {
      if i < |a| {
        assert (a + b)[..i] == a[..i];
      } else {
        assert sent + (a + b)[..i] == sent + a + b[..i - |a|];
      }
    }
  }

  lemma {:induction false} PsiIsNumbered(pid: nat, payload: bytes, continuity: nat)
    requires pid < 0x2000 && |payload| <= ROOM
    ensures Numbered([Packet(pid, [], payload, true, continuity)], pid, continuity, 0)
  {
    var t := Packet(pid, [], payload, true, continuity);
    HeadBytes(pid, true, 1, continuity);
    var h := PacketHead(pid, true, 1, continuity);
    hide PacketHead;
    assert t[..4] == h && t[0] == h[0] && t[1] == h[1] && t[2] == h[2] && t[3] == h[3];
  }

  lemma {:induction false} TablesContinue(c: Counters, sent: seq<bytes>, streamType: byte)
    requires Tracked(c, sent)
    ensures var u := Tables(streamType);
            Continuous(sent, Packets(c, u)) && Tracked(After(c, u), sent + Packets(c, u))
  {
    hide Packet, Numbered, Pid, Continuity, Count, Bits.Pack, Crc.Feed;
    var pat, pmt := PatPacket(c.pat), PmtPacket(streamType, c.pmt);
    PsiIsNumbered(PAT_PID, [0] + PAT_SECTION + Crc.Crc32(PAT_SECTION), c.pat);
    PsiIsNumbered(PMT_PID, [0] + PmtSection(streamType) + Crc.Crc32(PmtSection(streamType)), c.pmt);
    hide PatPacket, PmtPacket;
    NumberedContinues(sent, [pat], PAT_PID, c.pat, 0);
    WholeAppend(sent, [pat]);
    NumberedContinues(sent + [pat], [pmt], PMT_PID, c.pmt, 0);
    ContinuousAppend(sent, [pat], [pmt]);
    assert [pat] + [pmt] == [pat, pmt];
    Assoc(sent, [pat], [pmt]);
    WholeAppend(sent, [pat, pmt]);
    SameResidue(c.pat, Count(sent, PAT_PID), 1);
    SameResidue(c.pmt, Count(sent, PMT_PID), 1);
  }

  lemma {:induction false} PesContinues(c: Counters, sent: seq<bytes>, u: Unit)
    requires Tracked(c, sent) && !u.Tables?
    ensures Continuous(sent, Packets(c, u)) && Tracked(After(c, u), sent + Packets(c, u))
  {
    hide PesPackets, Numbered, Pid, Continuity, Count, ConfigPes, DataPes, PayloadsOf, Concat, Packets, After;
    var pid := PidOf(u.video);
    PesUnit(c, u);
    var ps := Packets(c, u);
    if u.Config? {
      PesIsRead(pid, ConfigPes(StreamIdOf(u.video), u.config), true, CounterOf(c, pid), Pcr(u.dts));
    } else {
      PesIsRead(pid, DataPes(StreamIdOf(u.video), u.data, u.timestamp), u.key, CounterOf(c, pid), Pcr(u.dts));
    }
    NumberedContinues(sent, ps, pid, CounterOf(c, pid), 0);
    WholeAppend(sent, ps);
    SameResidue(CounterOf(c, pid), Count(sent, pid), |ps|);
  }

  lemma {:induction false} UnitsContinue(c: Counters, sent: seq<bytes>, us: seq<Unit>)
    requires Tracked(c, sent)
    ensures Continuous(sent, AllPackets(c, us)) && Tracked(AfterAll(c, us), sent + AllPackets(c, us))
    decreases |us|
  {
    hide Tracked, Continuous, Packets, After;
    if us == [] {
      NothingSent(c, sent);
    } else {
      var u := us[0];
      if u.Tables? {
        TablesContinue(c, sent, u.streamType);
      } else {
        PesContinues(c, sent, u);
      }
      var ps := Packets(c, u);
      UnitsContinue(After(c, u), sent + ps, us[1..]);
      ContinuousAppend(sent, ps, AllPackets(After(c, u), us[1..]));
      Assoc(sent, ps, AllPackets(After(c, u), us[1..]));
    }
  }

  lemma {:induction false} NothingSent(c: Counters, sent: seq<bytes>)
    requires Tracked(c, sent)
    ensures Continuous(sent, []) && Tracked(c, sent + [])
  {
    assert sent + [] == sent;
  }

  /** Over every run, the output is whole packets and the k-th packet of each PID carries k modulo 16. */
  lemma {:induction false} RunIsContinuous(frames: seq<MediaFrame>)
    ensures Continuous([], AllPackets(Counters(0, 0, 0, 0), Run(frames).units))
  {
    hide Continuous, Run, AllPackets;
    UnitsContinue(Counters(0, 0, 0, 0), [], Run(frames).units);
  }

  /** A frame that fits is recovered from its packets: strip, join, parse. */
  lemma {:induction false} MediaIsRecovered(c: Counters, u: Unit)
    requires u.Media? && |u.data| <= 65_527
    ensures var ps := Packets(c, u);
            && (forall p :: p in ps ==> |p| == SIZE)
            && PsDemux.ParsePes(Concat(PayloadsOf(ps)))
               == PsDemux.Complete(
                    PsDemux.PesPacket(StreamIdOf(u.video), u.data, Some(u.timestamp * 90 % PsMux.PTS_MODULUS)),
                    14 + |u.data|)
  {
    hide PesPackets, Numbered, DataPes, PayloadsOf, Concat, PsDemux.ParsePes;
    PesUnit(c, u);
    var pid := PidOf(u.video);
    PesIsRead(pid, DataPes(StreamIdOf(u.video), u.data, u.timestamp), u.key, CounterOf(c, pid), Pcr(u.dts));
    DataPesRoundTrip(StreamIdOf(u.video), u.data, u.timestamp);
  }

  // ---- what a receiver gets over a run ----

  /** The receiver of one PID: a packet with the start flag opens a PES packet, the others continue the last one. */
  function Received(ps: seq<bytes>, pid: nat): seq<bytes>
    requires Whole(ps)
  {
    if ps == [] then []
    else
      var before, p := Received(ps[..|ps| - 1], pid), ps[|ps| - 1];
      if Pid(p) != pid then before
      else if Start(p) then before + [PayloadOf(p)]
      else if before == [] then []
      else before[..|before| - 1] + [before[|before| - 1] + PayloadOf(p)]
  }

  lemma {:induction false} ReceivedStep(ps: seq<bytes>, p: bytes, pid: nat)
    requires Whole(ps) && |p| == SIZE && p[0] == 0x47
    ensures Whole(ps + [p])
    ensures var before := Received(ps, pid);
            Received(ps + [p], pid)
            == if Pid(p) != pid then before
               else if Start(p) then before + [PayloadOf(p)]
               else if before == [] then []
               else before[..|before| - 1] + [before[|before| - 1] + PayloadOf(p)]
  {
    WholeAppend(ps, [p]);
    var all := ps + [p];
    assert all[..|all| - 1] == ps && all[|all| - 1] == p;
  }

  lemma {:induction false} ReceivedOther(a: seq<bytes>, b: seq<bytes>, pid: nat)
    requires Whole(a) && Whole(b) && forall i :: 0 <= i < |b| ==> Pid(b[i]) != pid
    ensures Whole(a + b) && Received(a + b, pid) == Received(a, pid)
    decreases |b|
  {
    hide Pid, Start, PayloadOf, Received;
    WholeAppend(a, b);
    if b == [] {
      assert a + b == a;
    } else {
      var n := |b| - 1;
      ReceivedOther(a, b[..n], pid);
      ReceivedStep(a + b[..n], b[n], pid);
      assert a + b[..n] + [b[n]] == a + b;
    }
  }

  /** The first `k` packets of a PES packet give one entry that grows. */
  lemma {:induction false} ReceivedGroup(a: seq<bytes>, b: seq<bytes>, pid: nat, n: nat, k: nat)
    requires Whole(a) && Numbered(b, pid, n, 0) && 0 < k <= |b| && forall p :: p in b ==> |p| == SIZE
    ensures Whole(a + b[..k]) && Received(a + b[..k], pid) == Received(a, pid) + [Concat(PayloadsOf(b[..k]))]
    decreases k
  {
    hide Pid, Start, Continuity, PayloadOf, Received, Concat;
    var c, p := b[..k - 1], b[k - 1];
    WholeAppend(a, c);
    assert a + c + [p] == a + b[..k];
    ReceivedStep(a + c, p, pid);
    PayloadsSnoc(c, p);
    assert c + [p] == b[..k];
    if k == 1 {
      assert c == [] && a + c == a;
      NoPayloads();
      assert [] + PayloadOf(p) == PayloadOf(p);
    } else {
      ReceivedGroup(a, b, pid, n, k - 1);
    }
  }

  lemma {:induction false} PayloadsSnoc(ps: seq<bytes>, p: bytes)
    requires |p| == SIZE && forall q :: q in ps ==> |q| == SIZE
    ensures Concat(PayloadsOf(ps + [p])) == Concat(PayloadsOf(ps)) + PayloadOf(p)
  {
    hide PayloadOf;
    assert PayloadsOf(ps + [p]) == PayloadsOf(ps) + [PayloadOf(p)];
    ConcatAppend(PayloadsOf(ps), [PayloadOf(p)]);
    assert [PayloadOf(p)][1..] == [];
  }

  function UnitPes(u: Unit): bytes
    requires !u.Tables?
  {
    if u.Config? then ConfigPes(StreamIdOf(u.video), u.config) else DataPes(StreamIdOf(u.video), u.data, u.timestamp)
  }

  /** The units of one elementary stream, in order. */
  function Elementary(us: seq<Unit>, video: bool): (r: seq<Unit>)
    ensures forall u :: u in r ==> !u.Tables? && u.video == video
  {
    if us == [] then []
    else (if !us[0].Tables? && us[0].video == video then [us[0]] else []) + Elementary(us[1..], video)
  }

  function PesList(us: seq<Unit>): (r: seq<bytes>)
    requires forall u :: u in us ==> !u.Tables?
    ensures |r| == |us|
  {
    seq(|us|, i requires 0 <= i < |us| => assert us[i] in us; UnitPes(us[i]))
  }

  /** One unit adds its PES packet to what the receiver of its PID has, and nothing elsewhere. */
  lemma {:induction false} UnitReceived(c: Counters, sent: seq<bytes>, u: Unit, video: bool)
    requires Whole(sent)
    ensures Whole(Packets(c, u)) && Whole(sent + Packets(c, u))
    ensures Received(sent + Packets(c, u), PidOf(video))
            == Received(sent, PidOf(video)) + PesList(Elementary([u], video))
  {
    hide PesPackets, Pid, Start, Continuity, PayloadOf, ConfigPes, DataPes, Packets, Received, Concat, Packet;
    hide Bits.Pack, Crc.Feed, PayloadsOf;
    var ps := Packets(c, u);
    assert [u][1..] == [] && Elementary([], video) == [];
    if u.Tables? {
      TablePids(c, u);
      ReceivedOther(sent, ps, PidOf(video));
      assert Received(sent, PidOf(video)) + [] == Received(sent, PidOf(video));
    } else {
      var pid := PidOf(u.video);
      PesUnit(c, u);
      PesIsRead(pid, UnitPes(u), if u.Config? then true else u.key, CounterOf(c, pid), Pcr(u.dts));
      if u.video == video {
        ReceivedGroup(sent, ps, pid, CounterOf(c, pid), |ps|);
        assert ps[..|ps|] == ps && PesList([u]) == [UnitPes(u)];
      } else {
        ReceivedOther(sent, ps, PidOf(video));
        assert Received(sent, PidOf(video)) + [] == Received(sent, PidOf(video));
      }
    }
  }

  lemma {:induction false} TablePids(c: Counters, u: Unit)
    requires u.Tables?
    ensures Whole(Packets(c, u)) && forall i :: 0 <= i < |Packets(c, u)| ==> Pid(Packets(c, u)[i]) in {PAT_PID, PMT_PID}
  {
    hide Packet, Pid, Continuity, Start, Bits.Pack, Crc.Feed;
    var pat, pmt := PatPacket(c.pat), PmtPacket(u.streamType, c.pmt);
    PsiIsNumbered(PAT_PID, [0] + PAT_SECTION + Crc.Crc32(PAT_SECTION), c.pat);
    PsiIsNumbered(PMT_PID, [0] + PmtSection(u.streamType) + Crc.Crc32(PmtSection(u.streamType)), c.pmt);
    hide PatPacket, PmtPacket;
    assert [pat][0] == pat && [pmt][0] == pmt;
  }

  lemma {:induction false} UnitsStep(c: Counters, us: seq<Unit>, video: bool)
    requires us != []
    ensures AllPackets(c, us) == Packets(c, us[0]) + AllPackets(After(c, us[0]), us[1..])
    ensures PesList(Elementary(us, video)) == PesList(Elementary([us[0]], video)) + PesList(Elementary(us[1..], video))
  {
    hide Packets, After, UnitPes;
    var first, rest := Elementary([us[0]], video), Elementary(us[1..], video);
    assert [us[0]][1..] == [] && Elementary([], video) == [];
    assert Elementary(us, video) == first + rest;
    hide Elementary;
    assert PesList(first + rest) == PesList(first) + PesList(rest);
  }

  lemma {:induction false} UnitsEnd(c: Counters, video: bool)
    ensures AllPackets(c, []) == [] && PesList(Elementary([], video)) == []
  {
  }

  lemma {:induction false} UnitsReceived(c: Counters, sent: seq<bytes>, us: seq<Unit>, video: bool)
    requires Whole(sent)
    ensures Whole(sent + AllPackets(c, us))
    ensures Received(sent + AllPackets(c, us), PidOf(video))
            == Received(sent, PidOf(video)) + PesList(Elementary(us, video))
    decreases |us|
  {
    hide *;
    if us == [] {
      UnitsEnd(c, video);
      assert sent + [] == sent && Received(sent, PidOf(video)) + [] == Received(sent, PidOf(video));
    } else {
      var ps := Packets(c, us[0]);
      UnitsStep(c, us, video);
      UnitReceived(c, sent, us[0], video);
      UnitsReceived(After(c, us[0]), sent + ps, us[1..], video);
      Assoc(sent, ps, AllPackets(After(c, us[0]), us[1..]));
      Assoc(Received(sent, PidOf(video)), PesList(Elementary([us[0]], video)), PesList(Elementary(us[1..], video)));
    }
  }

  /** What parsing the PES packet of a unit should give. */
  function Recovered(u: Unit): PsDemux.PesPacket
    requires !u.Tables?
  {
    if u.Config? then PsDemux.PesPacket(StreamIdOf(u.video), u.config, None)
    else PsDemux.PesPacket(StreamIdOf(u.video), u.data, Some(u.timestamp * 90 % PsMux.PTS_MODULUS))
  }

  /** Over every run, selecting the packets of a PID and grouping them by the start flag gives one PES packet for each
    * unit of that stream, in order; parsing it gives back the unit, with the time of a frame, if and only if its
    * length field does not wrap. */
  lemma {:induction false} RunIsRecovered(frames: seq<MediaFrame>, video: bool, i: nat)
    requires i < |Elementary(Run(frames).units, video)|
    ensures var sent := AllPackets(Counters(0, 0, 0, 0), Run(frames).units);
            var us := Elementary(Run(frames).units, video);
            && Whole(sent) && |Received(sent, PidOf(video))| == |us|
            && us[i] in us
            && var pes := Received(sent, PidOf(video))[i];
               PsDemux.ParsePes(pes) == PsDemux.Complete(Recovered(us[i]), |pes|)
               <==> if us[i].Config? then |us[i].config| <= 65_532 else |us[i].data| <= 65_527
  {
    hide Run, AllPackets, Received, Whole, Elementary, ConfigPes, DataPes, PsDemux.ParsePes;
    var units := Run(frames).units;
    var us := Elementary(units, video);
    NothingReceived(PidOf(video));
    UnitsReceived(Counters(0, 0, 0, 0), [], units, video);
    assert [] + AllPackets(Counters(0, 0, 0, 0), units) == AllPackets(Counters(0, 0, 0, 0), units);
    assert [] + PesList(us) == PesList(us) && us[i] in us;
    if us[i].Config? {
      ConfigPesRoundTrip(StreamIdOf(us[i].video), us[i].config);
    } else {
      DataPesRoundTrip(StreamIdOf(us[i].video), us[i].data, us[i].timestamp);
    }
  }

  lemma {:induction false} NothingReceived(pid: nat)
    ensures Whole([]) && Received([], pid) == []
  {
  }

  // ---- the tables ----

  /** The section a receiver cuts out of a table packet by its section length, checksum included. */
  function SectionOf(d: bytes): bytes {
    if |d| < 4 || |d| < 4 + U16(d, 2) % 0x1000 then [] else d[1..4 + U16(d, 2) % 0x1000]
  }

  lemma {:induction false} SectionIsCut(section: bytes, check: bytes, rest: bytes)
    requires 3 <= |section| && U16(section, 1) % 0x1000 == |section| - 3 + |check|
    ensures SectionOf([0] + section + check + rest) == section + check
  {
    var d := [0] + section + check + rest;
    assert d[2] == section[1] && d[3] == section[2];
    assert d[1..1 + |section| + |check|] == section + check;
  }

  lemma {:induction false} TablePayload(pid: nat, payload: bytes, continuity: nat)
    requires |payload| <= ROOM
    ensures PayloadOf(Packet(pid, [], payload, true, continuity)) == payload + Fill(ROOM)[..ROOM - |payload|]
  {
    hide PacketHead, Fill, PayloadOf;
    var rest := payload + Fill(ROOM)[..ROOM - |payload|];
    assert ([] + payload + Fill(ROOM))[..ROOM] == rest;
    HeadControl(pid, continuity);
    PlainPayload(PacketHead(pid, true, 1, continuity), rest);
  }

  lemma {:induction false} HeadControl(pid: nat, continuity: nat)
    ensures PacketHead(pid, true, 1, continuity)[3] / 0x10 % 4 == 1
  {
  }

  lemma {:induction false} PlainPayload(head: bytes, rest: bytes)
    requires |head| == 4 && |rest| == ROOM && head[3] / 0x10 % 4 == 1
    ensures PayloadOf(head + rest) == rest
  {
  }

  /** The packet of a table gives back its section and checksum. */
  lemma {:induction false} TableIsCut(pid: nat, section: bytes, continuity: nat)
    requires 3 <= |section| && |section| + 4 < ROOM && U16(section, 1) % 0x1000 == |section| - 3 + 4
    ensures var check := Crc.Crc32(section);
            SectionOf(PayloadOf(Packet(pid, [], [0] + section + check, true, continuity))) == section + check
  {
    hide Crc.Feed, Bits.Pack, Packet, PayloadOf, SectionOf, Fill, U16;
    var check := Crc.Crc32(section);
    TablePayload(pid, [0] + section + check, continuity);
    SectionIsCut(section, check, Fill(ROOM)[..ROOM - (5 + |section|)]);
  }

  lemma {:induction false} PatIsCut(continuity: nat)
    ensures SectionOf(PayloadOf(PatPacket(continuity))) == PAT_SECTION + Crc.Crc32(PAT_SECTION)
  {
    hide Crc.Feed, Bits.Pack, Packet, PayloadOf, SectionOf;
    TableIsCut(PAT_PID, PAT_SECTION, continuity);
  }

  lemma {:induction false} PmtIsCut(streamType: byte, continuity: nat)
    ensures SectionOf(PayloadOf(PmtPacket(streamType, continuity)))
            == PmtSection(streamType) + Crc.Crc32(PmtSection(streamType))
  {
    hide Crc.Feed, Bits.Pack, Packet, PayloadOf, SectionOf;
    TableIsCut(PMT_PID, PmtSection(streamType), continuity);
  }

  /** Both table packets carry a section of the announced length whose checksum a receiver finds right. */
  lemma {:induction false} TablesCheck(streamType: byte, continuity: nat)
    ensures Crc.Feed(Crc.Ones(), SectionOf(PayloadOf(PatPacket(continuity)))) == Bits.Zeros(32)
    ensures Crc.Feed(Crc.Ones(), SectionOf(PayloadOf(PmtPacket(streamType, continuity)))) == Bits.Zeros(32)
  {
    hide Crc.Feed, Crc.Crc32, PatPacket, PmtPacket, PayloadOf, SectionOf, PmtSection;
    PatIsCut(continuity);
    PmtIsCut(streamType, continuity);
    Crc.CrcOfCheckedData(PAT_SECTION);
    Crc.CrcOfCheckedData(PmtSection(streamType));
  }

  /** What a receiver of the program association table reads: table 0, one program, its map. */
  predicate NamesMap(d: bytes, pid: nat) {
    |d| == 16 && d[0] == 0 && U16(d, 8) != 0 && U16(d, 10) % 0x2000 == pid
  }

  /** Table 2 without descriptors: the clock is on `pcr`, and at `off` a stream of type `kind` is on `pid`. */
  predicate NamesStream(d: bytes, pcr: nat, off: nat, kind: byte, pid: nat) {
    && off + 5 <= |d| && 12 <= off && d[0] == 2 && U16(d, 8) % 0x2000 == pcr && U16(d, 10) % 0x1000 == 0
    && d[off] == kind && U16(d, off + 1) % 0x2000 == pid && U16(d, off + 3) % 0x1000 == 0
  }

  /** From the packets a receiver finds the map, and in it the clock and exactly the two streams. */
  lemma {:induction false} TablesDescribe(streamType: byte, continuity: nat)
    ensures NamesMap(SectionOf(PayloadOf(PatPacket(continuity))), Pid(PmtPacket(streamType, continuity)))
    ensures var d := SectionOf(PayloadOf(PmtPacket(streamType, continuity)));
            && |d| == 12 + 5 + 5 + 4
            && NamesStream(d, PidOf(true), 12, streamType, PidOf(true))
            && NamesStream(d, PidOf(true), 17, 0x0f, PidOf(false))
  {
    hide Crc.Crc32, PatPacket, PmtPacket, PayloadOf, SectionOf, Pid, NamesMap, NamesStream, PmtSection;
    PatIsCut(continuity);
    PmtIsCut(streamType, continuity);
    PmtPid(streamType, continuity);
    PatNames(Crc.Crc32(PAT_SECTION));
    PmtNames(streamType, Crc.Crc32(PmtSection(streamType)));
  }

  lemma {:induction false} PmtPid(streamType: byte, continuity: nat)
    ensures Pid(PmtPacket(streamType, continuity)) == PMT_PID
  {
    hide Crc.Feed, Bits.Pack, Packet, Pid, Continuity, Start, PmtSection;
    var pmt := PmtSection(streamType);
    assert |pmt| == 22 by { PmtSize(streamType); }
    PsiIsNumbered(PMT_PID, [0] + pmt + Crc.Crc32(pmt), continuity);
    assert [PmtPacket(streamType, continuity)][0] == PmtPacket(streamType, continuity);
  }

  lemma {:induction false} PmtSize(streamType: byte)
    ensures |PmtSection(streamType)| == 22
  {
  }

  lemma {:induction false} PatNames(check: bytes)
    requires |check| == 4
    ensures NamesMap(PAT_SECTION + check, PMT_PID)
  {
  }

  lemma {:induction false} PmtNames(streamType: byte, check: bytes)
    requires |check| == 4
    ensures var d := PmtSection(streamType) + check;
            && |d| == 26 && NamesStream(d, VIDEO_PID, 12, streamType, VIDEO_PID)
            && NamesStream(d, VIDEO_PID, 17, 0x0f, AUDIO_PID)
  {
  }
}
