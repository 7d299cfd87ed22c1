/** The program stream muxer and demuxer undo each other, whatever way the bytes are cut. */
module PsStream {
  import opened Bytes
  import opened Frames
  import Payload
  import opened PsMux
  import opened PsMuxer
  import opened PsDemux

  function Id(u: Unit): byte {
    match u
    case PackHeader(_) => 0xba
    case SystemHeader(_) => 0xbb
    case StreamMap(_) => 0xbc
    case Pes(track, _, _, _) => track.streamId
  }

  /** The first six bytes of a unit, and how a reader finds its end. */
  predicate Framed(u: Unit, e: bytes) {
    && |e| >= 12
    && e[0] == 0 && e[1] == 0 && e[2] == 1 && e[3] == Id(u)
    && (if u.PackHeader? then |e| == 14 && e[13] % 8 == 0 else U16(e, 4) == |e| - 6)
    && |e| <= 65_531
  }

  lemma {:induction false} UnitIsFramed(u: Unit)
    requires Fits(u)
    ensures Framed(u, Encode(u))
  {
    hide PackHeaderBytes, SystemHeaderBytes, MapBytes, PesBytes, EncodeTimestamp, U16;
    match u
    case PackHeader(scr) => PackHeaderCarriesScr(scr); PackPrefix(scr);
    case SystemHeader(tracks) => SystemPrefix(tracks);
    case StreamMap(tracks) => MapPrefix(tracks);
    case Pes(track, pts, dts, payload) => PesPrefix(track.streamId, pts, dts, payload);
  }

  lemma {:induction false} PackPrefix(scr: nat)
    ensures var e := PackHeaderBytes(scr);
            |e| == 14 && e[0] == 0 && e[1] == 0 && e[2] == 1 && e[3] == 0xba
  {
    hide Bits.Pack, PackBits;
  }

  lemma {:induction false} SystemPrefix(tracks: seq<PsTrack>)
    requires |tracks| <= 7
    ensures Framed(SystemHeader(tracks), SystemHeaderBytes(tracks))
  {
    hide SystemBody;
  }

  lemma {:induction false} MapPrefix(tracks: seq<PsTrack>)
    requires |tracks| <= 7
    ensures Framed(StreamMap(tracks), MapBytes(tracks))
  {
    hide Crc.Crc32, MapEntriesBytes;
  }

  lemma {:induction false} PesPrefix(streamId: byte, pts: nat, dts: nat, payload: bytes)
    requires 0 < |payload| <= MAX_PES_PAYLOAD
    ensures var e := PesBytes(streamId, pts, dts, payload);
            && 14 < |e| <= 65_531
            && e[0] == 0 && e[1] == 0 && e[2] == 1 && e[3] == streamId && U16(e, 4) == |e| - 6
            && e[6] == 0x80 && e[7] == (if pts != dts then 0xc0 else 0x80) && e[8] == (if pts != dts then 10 else 5)
            && e[9..14] == EncodeTimestamp(if pts != dts then 3 else 2, pts)
            && e[9 + e[8] as int..] == payload
  {
    hide EncodeTimestamp;
  }

  lemma {:induction false} TimestampRoundTrip(prefix: nat, v: nat, d: bytes, p: nat)
    requires prefix < 0x10 && v < PTS_MODULUS && p + 5 <= |d|
    requires d[p..p + 5] == EncodeTimestamp(prefix, v)
    ensures DecodeTimestamp(d, p) == v
  {
    hide EncodeTimestamp;
    var t := EncodeTimestamp(prefix, v);
    assert d[p] == t[0] && d[p + 1] == t[1] && d[p + 2] == t[2] && d[p + 3] == t[3] && d[p + 4] == t[4];
    TimestampFields(prefix, v);
    TimestampDigits(v);
  }

  lemma {:induction false} TimestampFields(prefix: nat, v: nat)
    requires prefix < 0x10 && v < PTS_MODULUS
    ensures var t := EncodeTimestamp(prefix, v);
            && t[0] as int / 2 % 8 == v / 0x4000_0000
            && t[1] == v / 0x40_0000 % 0x100
            && t[2] as int / 2 == v / 0x8000 % 0x80
            && t[3] == v / 0x80 % 0x100
            && t[4] as int / 2 == v % 0x80
  {
    var top := v / 0x4000_0000;
    LeadField(prefix, top);
    DivMod(2, v / 0x8000 % 0x80, 1);
    DivMod(2, v % 0x80, 1);
    TimestampBytes(prefix, v);
    hide EncodeTimestamp;
  }

  lemma {:induction false} TimestampBytes(prefix: nat, v: nat)
    requires prefix < 0x10 && v < PTS_MODULUS
    ensures EncodeTimestamp(prefix, v)
            == [prefix * 0x10 + v / 0x4000_0000 * 2 + 1, v / 0x40_0000 % 0x100, v / 0x8000 % 0x80 * 2 + 1,
                v / 0x80 % 0x100, v % 0x80 * 2 + 1]
  {
    DivMod(PTS_MODULUS, 0, v);
  }

  lemma {:induction false} LeadField(prefix: nat, top: nat)
    requires top < 8
    ensures (prefix * 0x10 + top * 2 + 1) / 2 % 8 == top
  {
    DivMod(2, prefix * 8 + top, 1);
    DivMod(8, prefix, top);
  }

  lemma {:induction false} TimestampDigits(v: nat)
    ensures v == v / 0x4000_0000 * 0x4000_0000 + v / 0x40_0000 % 0x100 * 0x40_0000 + v / 0x8000 % 0x80 * 0x8000
                 + v / 0x80 % 0x100 * 0x80 + v % 0x80
  {
    var a := v / 0x80;
    var b := a / 0x100;
    var c := b / 0x80;
    assert b == v / 0x8000 && c == v / 0x40_0000 && c / 0x100 == v / 0x4000_0000;
    assert c == 0x100 * (c / 0x100) + c % 0x100;
  }

  // ---- one unit at the front of the buffer ----

  /** A complete header is dropped and only its map is remembered. */
  lemma {:induction false} HeaderIsSkipped(u: Unit, x: bytes, types: map<byte, byte>)
    requires Fits(u) && !u.Pes? && Encode(u) <= x
    ensures Next(x, types) == Next(x[|Encode(u)|..], TypesAfter(types, Encode(u)))
  {
    hide Encode, Fits, TypesAfter, ParseOne, LeadingHeaderLen, Framed;
    var e := Encode(u);
    UnitIsFramed(u);
    HeaderLenIs(u, e, x);
    assert x[..|e|] == e;
  }

  lemma {:induction false} HeaderLenIs(u: Unit, e: bytes, x: bytes)
    requires Framed(u, e) && !u.Pes? && e <= x
    ensures LeadingHeaderLen(x) == Some(|e|)
  {
    FirstBytes(u, e, x);
  }

  lemma {:induction false} FirstBytes(u: Unit, e: bytes, x: bytes)
    requires Framed(u, e) && (e <= x || x <= e)
    ensures forall k :: 0 <= k < |e| && k < |x| ==> x[k] == e[k]
    ensures |x| >= 6 && !u.PackHeader? ==> U16(x, 4) == |e| - 6
  {
  }

  /** A complete PES packet is returned and removed. */
  lemma {:induction false} PacketIsReturned(u: Unit, x: bytes, types: map<byte, byte>)
    requires Fits(u) && u.Pes? && Encode(u) <= x
    ensures Next(x, types)
            == Demuxed(x[|Encode(u)|..], types, Some(PesPacket(u.track.streamId, u.payload, Some(u.pts))))
  {
    var e := Encode(u);
    UnitIsFramed(u);
    PesPrefix(u.track.streamId, u.pts, u.dts, u.payload);
    FirstBytes(u, e, x);
    hide Encode;
    PacketParses(u.pts, u.dts, u.payload, e, x);
    assert LeadingHeaderLen(x) == None;
    assert x[0..] == x;
    assert CodeAt(x, 0) && ParseFrom(x, 0) == ParsePes(x);
  }

  lemma {:induction false} PacketParses(pts: nat, dts: nat, payload: bytes, e: bytes, x: bytes)
    requires e <= x && 14 < |e| && U16(e, 4) == |e| - 6 && pts < PTS_MODULUS
    requires forall k :: 0 <= k < |e| ==> x[k] == e[k]
    requires e[6] == 0x80 && e[7] == (if pts != dts then 0xc0 else 0x80) && e[8] == (if pts != dts then 10 else 5)
    requires e[9..14] == EncodeTimestamp(if pts != dts then 3 else 2, pts)
    requires 0 < |payload| && 9 + e[8] as int < |e| && e[9 + e[8] as int..] == payload
    ensures ParsePes(x) == Complete(PesPacket(e[3], payload, Some(pts)), |e|)
  {
    assert x[9..14] == e[9..14];
    TimestampRoundTrip(if pts != dts then 3 else 2, pts, x, 9);
    hide EncodeTimestamp, DecodeTimestamp;
    var h := 9 + e[8] as int;
    assert x[h..|e|] == e[h..];
  }

  /** An incomplete unit stays in the buffer untouched. */
  lemma {:induction false} PartialStays(u: Unit, x: bytes, types: map<byte, byte>)
    requires Fits(u) && x < Encode(u)
    ensures Next(x, types) == Demuxed(x, types, None)
  {
    var ok := u.Pes? ==> u.track.streamId >= 0xc0;
    assert ok;
    hide Encode, Fits, LeadingHeaderLen, ParseOne, Framed;
    UnitIsFramed(u);
    NotALeadingHeader(u, Encode(u), x);
    PartialIsIncomplete(u, Encode(u), x);
  }

  lemma {:induction false} NotALeadingHeader(u: Unit, e: bytes, x: bytes)
    requires Framed(u, e) && x < e && (u.Pes? ==> u.track.streamId >= 0xc0)
    ensures LeadingHeaderLen(x) == None
  {
    FirstBytes(u, e, x);
  }

  lemma {:induction false} PartialIsIncomplete(u: Unit, e: bytes, x: bytes)
    requires Framed(u, e) && x < e && (u.Pes? ==> u.track.streamId >= 0xc0)
    ensures ParseOne(x) == Incomplete
  {
    FirstBytes(u, e, x);
    if |x| >= 6 {
      assert CodeAt(x, 0) && x[0..] == x;
      if u.Pes? {
        assert ParseFrom(x, 0) == ParsePes(x);
      } else if !u.PackHeader? {
        assert ParseFrom(x, |e|) == Incomplete;
      }
    }
  }

  // ---- draining and feeding ----

  datatype Drained = Drained(buf: bytes, types: map<byte, byte>, pes: seq<PesPacket>)

  /** `while let Some(pes) = demuxer.next_pes()`. */
  function Drain(buf: bytes, types: map<byte, byte>): Drained
    decreases |buf|
  {
    var r := Next(buf, types);
    if r.pes.None? then Drained(r.buf, r.types, [])
    else
      var d := Drain(r.buf, r.types);
      Drained(d.buf, d.types, [r.pes.value] + d.pes)
  }

  /** Pushing each piece and draining after it. */
  function FeedPieces(buf: bytes, types: map<byte, byte>, pieces: seq<bytes>): Drained
    decreases |pieces|
  {
    if pieces == [] then Drained(buf, types, [])
    else
      var d := Drain(Pushed(buf, pieces[0]), types);
      var rest := FeedPieces(d.buf, d.types, pieces[1..]);
      Drained(rest.buf, rest.types, d.pes + rest.pes)
  }

  function PesOf(us: seq<Unit>): seq<PesPacket> {
    if us == [] then []
    else
      (if us[0].Pes? then [PesPacket(us[0].track.streamId, us[0].payload, Some(us[0].pts))] else []) + PesOf(us[1..])
  }

  function TypesOf(types: map<byte, byte>, us: seq<Unit>): map<byte, byte>
    decreases |us|
  {
    if us == [] then types
    else TypesOf(if us[0].Pes? then types else TypesAfter(types, Encode(us[0])), us[1..])
  }

  /** How many leading units are complete in the first `n` bytes. */
  function Ready(us: seq<Unit>, n: nat): (k: nat)
    ensures k <= |us|
  {
    if us == [] || |Encode(us[0])| > n then 0 else 1 + Ready(us[1..], n - |Encode(us[0])|)
  }

  /** The types in force after the first unit. */
  function TypesAfterFirst(types: map<byte, byte>, us: seq<Unit>): map<byte, byte>
    requires us != []
  {
    if us[0].Pes? then types else TypesAfter(types, Encode(us[0]))
  }

  lemma {:induction false} EncodeFirst(us: seq<Unit>)
    requires us != []
    ensures EncodeAll(us) == Encode(us[0]) + EncodeAll(us[1..])
  {
    hide Encode;
  }

  lemma {:induction false} PesFirst(us: seq<Unit>)
    requires us != []
    ensures PesOf(us) == PesOf([us[0]]) + PesOf(us[1..])
  {
    assert [us[0]][1..] == [];
  }

  lemma {:induction false} TypesFirst(us: seq<Unit>, types: map<byte, byte>)
    requires us != []
    ensures TypesOf(types, us) == TypesOf(TypesAfterFirst(types, us), us[1..])
  {
    hide TypesAfter;
  }

  lemma {:induction false} SameFirst(us: seq<Unit>, vs: seq<Unit>, types: map<byte, byte>)
    requires us != [] && vs != [] && us[0] == vs[0]
    ensures TypesAfterFirst(types, us) == TypesAfterFirst(types, vs)
  {
    hide TypesAfter;
  }

  lemma {:induction false} FirstUnit(us: seq<Unit>, k: nat, types: map<byte, byte>)
    requires 0 < k <= |us|
    ensures EncodeAll(us) == Encode(us[0]) + EncodeAll(us[1..])
    ensures EncodeAll(us[..k]) == Encode(us[0]) + EncodeAll(us[1..][..k - 1])
    ensures PesOf(us[..k]) == PesOf([us[0]]) + PesOf(us[1..][..k - 1])
    ensures TypesOf(types, us[..k]) == TypesOf(TypesAfterFirst(types, us), us[1..][..k - 1])
    ensures us[k..] == us[1..][k - 1..]
  {
    hide *;
    var vs := us[..k];
    assert vs[0] == us[0] && vs[1..] == us[1..][..k - 1];
    EncodeFirst(us);
    EncodeFirst(vs);
    PesFirst(vs);
    TypesFirst(vs, types);
    SameFirst(us, vs, types);
  }

  lemma {:induction false} DrainFirst(us: seq<Unit>, x: bytes, types: map<byte, byte>)
    requires us != [] && Fits(us[0]) && Encode(us[0]) <= x
    ensures var d := Drain(x[|Encode(us[0])|..], TypesAfterFirst(types, us));
            Drain(x, types) == Drained(d.buf, d.types, PesOf([us[0]]) + d.pes)
  {
    hide Encode, Next, TypesAfter, Fits;
    assert [us[0]][1..] == [];
    var d := Drain(x[|Encode(us[0])|..], TypesAfterFirst(types, us));
    if us[0].Pes? {
      PacketIsReturned(us[0], x, types);
      assert PesOf([us[0]]) == [PesPacket(us[0].track.streamId, us[0].payload, Some(us[0].pts))];
    } else {
      HeaderIsSkipped(us[0], x, types);
      assert PesOf([us[0]]) + d.pes == d.pes;
    }
  }

  /** Draining a prefix of a stream yields exactly the packets that are complete in it. */
  lemma {:induction false} DrainPrefix(us: seq<Unit>, x: bytes, types: map<byte, byte>)
    requires AllFit(us) && x <= EncodeAll(us)
    ensures var k := Ready(us, |x|);
            && EncodeAll(us[..k]) <= x
            && Drain(x, types) == Drained(x[|EncodeAll(us[..k])|..], TypesOf(types, us[..k]), PesOf(us[..k]))
            && Ready(us[k..], |x| - |EncodeAll(us[..k])|) == 0
    decreases |us|
  {
    hide Encode, Next, TypesAfter, Fits, TypesAfterFirst, EncodeAll, Drain, PesOf, TypesOf, Ready;
    var k := Ready(us, |x|);
    ReadyStep(us, |x|);
    if k == 0 {
      NothingReady(us, x, types);
    } else {
      FirstUnit(us, k, types);
      var e := Encode(us[0]);
      assert EncodeAll(us)[..|e|] == e;
      var rest := x[|e|..];
      assert e <= x;
      assert EncodeAll(us)[|e|..] == EncodeAll(us[1..]);
      assert rest <= EncodeAll(us[1..]);
      DrainPrefix(us[1..], rest, TypesAfterFirst(types, us));
      DrainFirst(us, x, types);
      var done := EncodeAll(us[1..][..k - 1]);
      assert x == e + rest;
      assert rest[|done|..] == x[|e + done|..];
    }
  }

  lemma {:induction false} ReadyStep(us: seq<Unit>, n: nat)
    ensures Ready(us, n) == if us == [] || |Encode(us[0])| > n then 0 else 1 + Ready(us[1..], n - |Encode(us[0])|)
  {
    hide Encode;
  }

  lemma {:induction false} NothingReady(us: seq<Unit>, x: bytes, types: map<byte, byte>)
    requires AllFit(us) && x <= EncodeAll(us) && Ready(us, |x|) == 0
    ensures us[..0] == [] && us[0..] == us && EncodeAll(us[..0]) == []
    ensures Drain(x, types) == Drained(x, types, []) && TypesOf(types, us[..0]) == types && PesOf(us[..0]) == []
    ensures x[0..] == x
  {
    hide Encode, Next, TypesAfter, Fits;
    if us == [] {
      assert x == [];
      NothingToDo(types);
    } else {
      assert x < Encode(us[0]);
      PartialStays(us[0], x, types);
    }
  }

  lemma {:induction false} NothingToDo(types: map<byte, byte>)
    ensures Next([], types) == Demuxed([], types, None)
  {
  }

  lemma {:induction false} NoUnits(types: map<byte, byte>)
    ensures EncodeAll([]) == [] && PesOf([]) == [] && TypesOf(types, []) == types
  {
  }

  lemma {:induction false} SplitUnits(us: seq<Unit>, k: nat, types: map<byte, byte>)
    requires k <= |us|
    ensures EncodeAll(us) == EncodeAll(us[..k]) + EncodeAll(us[k..])
    ensures PesOf(us) == PesOf(us[..k]) + PesOf(us[k..])
    ensures TypesOf(types, us) == TypesOf(TypesOf(types, us[..k]), us[k..])
    decreases |us|
  {
    hide *;
    if k == 0 {
      NoUnits(types);
      assert us[..0] == [] && us[0..] == us;
    } else {
      FirstUnit(us, k, types);
      PesFirst(us);
      TypesFirst(us, types);
      SplitUnits(us[1..], k - 1, TypesAfterFirst(types, us));
    }
  }

  /** A partial unit is short enough that nothing is ever dropped to make room. */
  lemma {:induction false} PartialIsShort(us: seq<Unit>, n: nat)
    requires AllFit(us) && Ready(us, n) == 0 && n <= |EncodeAll(us)|
    ensures n <= 65_530
  {
    if us != [] {
      UnitIsFramed(us[0]);
    }
  }

  const MAX_PIECE: nat := MAX_BUF - 65_530

  /** The round trip from any point at which the buffer holds the start of the next unit. */
  lemma {:induction false} FeedResumes(us: seq<Unit>, buf: bytes, types: map<byte, byte>, pieces: seq<bytes>)
    requires AllFit(us) && Ready(us, |buf|) == 0
    requires forall p :: p in pieces ==> |p| <= MAX_PIECE
    requires buf + Concat(pieces) == EncodeAll(us)
    ensures FeedPieces(buf, types, pieces) == Drained([], TypesOf(types, us), PesOf(us))
    decreases |pieces|
  {
    hide Encode, Drain, TypesAfter, Fits, Ready, PesOf, TypesOf, EncodeAll;
    if pieces == [] {
      assert buf == EncodeAll(us);
      AllConsumed(us, types);
    } else {
      PartialIsShort(us, |buf|);
      var x := buf + pieces[0];
      assert Pushed(buf, pieces[0]) == x;
      assert x + Concat(pieces[1..]) == EncodeAll(us);
      DrainPrefix(us, x, types);
      var k := Ready(us, |x|);
      SplitUnits(us, k, types);
      var rest := x[|EncodeAll(us[..k])|..];
      assert x == EncodeAll(us[..k]) + rest;
      assert EncodeAll(us[..k]) + (rest + Concat(pieces[1..])) == EncodeAll(us[..k]) + EncodeAll(us[k..]);
      SameTail(EncodeAll(us[..k]), rest + Concat(pieces[1..]), EncodeAll(us[k..]));
      FeedResumes(us[k..], rest, TypesOf(types, us[..k]), pieces[1..]);
    }
  }

  lemma {:induction false} SameTail(a: bytes, b: bytes, c: bytes)
    requires a + b == a + c
    ensures b == c
  {
    assert (a + b)[|a|..] == b && (a + c)[|a|..] == c;
  }

  lemma {:induction false} AllConsumed(us: seq<Unit>, types: map<byte, byte>)
    requires AllFit(us) && Ready(us, |EncodeAll(us)|) == 0
    ensures us == [] && EncodeAll(us) == [] && TypesOf(types, us) == types && PesOf(us) == []
  {
    hide Encode, TypesAfter;
  }

  /** Every cut of a well-formed stream into pieces yields exactly its packets, in order. */
  lemma {:induction false} AnyCutRoundTrips(us: seq<Unit>, pieces: seq<bytes>)
    requires AllFit(us)
    requires forall p :: p in pieces ==> |p| <= MAX_PIECE
    requires Concat(pieces) == EncodeAll(us)
    ensures FeedPieces([], map[], pieces) == Drained([], TypesOf(map[], us), PesOf(us))
  {
    hide *;
    NoneReady(us);
    assert [] + Concat(pieces) == Concat(pieces);
    FeedResumes(us, [], map[], pieces);
  }

  lemma {:induction false} NoneReady(us: seq<Unit>)
    requires AllFit(us)
    ensures Ready(us, 0) == 0
  {
    hide Encode, Fits;
    if us != [] {
      UnitIsFramed(us[0]);
    }
  }

  // ---- the program stream map ----

  function Pairs(tracks: seq<PsTrack>): seq<StreamInfo> {
    if tracks == [] then [] else [StreamInfo(tracks[0].streamId, tracks[0].streamType)] + Pairs(tracks[1..])
  }

  lemma {:induction false} EntriesParse(d: bytes, off: nat, tracks: seq<PsTrack>)
    requires At(d, off, MapEntriesBytes(tracks))
    ensures MapEntries(d, off, off + 4 * |tracks|) == Pairs(tracks)
    decreases |tracks|
  {
    hide At, MapEntries, U16;
    AtIs(d, off, MapEntriesBytes(tracks));
    if tracks != [] {
      EntriesSplit(tracks);
      AtSplit(d, off, MapEntryBytes(tracks[0]), MapEntriesBytes(tracks[1..]));
      hide MapEntriesBytes, MapEntryBytes;
      EntryParses(d, off, off + 4 * |tracks|, tracks[0]);
      EntriesParse(d, off + 4, tracks[1..]);
    } else {
      NoEntries(d, off);
    }
  }

  lemma {:induction false} EntriesSplit(tracks: seq<PsTrack>)
    requires tracks != []
    ensures MapEntriesBytes(tracks) == MapEntryBytes(tracks[0]) + MapEntriesBytes(tracks[1..])
    ensures |MapEntriesBytes(tracks)| == 4 * |tracks| && |MapEntryBytes(tracks[0])| == 4
  {
  }

  lemma {:induction false} NoEntries(d: bytes, off: nat)
    requires off <= |d|
    ensures MapEntries(d, off, off) == []
  {
  }

  lemma {:induction false} EntryParses(d: bytes, off: nat, end: nat, t: PsTrack)
    requires At(d, off, MapEntryBytes(t)) && off + 4 <= end <= |d|
    ensures MapEntries(d, off, end) == [StreamInfo(t.streamId, t.streamType)] + MapEntries(d, off + 4, end)
  {
    assert d[off..off + 4] == MapEntryBytes(t);
    assert d[off] == t.streamType && d[off + 1] == t.streamId && d[off + 2] == 0 && d[off + 3] == 0;
  }

  /** A map whose lengths fit their fields is read back track by track and its checksum is right. */
  lemma {:induction false} MapRoundTrips(tracks: seq<PsTrack>)
    requires 10 + 4 * |tracks| < 0x1_0000
    ensures MapStreams(MapBytes(tracks)) == Pairs(tracks)
    ensures Crc.Feed(Crc.Ones(), MapBytes(tracks)) == Bits.Zeros(32)
  {
    hide Crc.Crc32, MapEntriesBytes, MapEntries, Crc.Feed, MapTable, MapBody, At;
    Crc.CrcOfCheckedData(MapBody(tracks));
    MapTableIs(tracks);
    EntriesParse(MapBytes(tracks), 12, tracks);
  }

  lemma {:induction false} MapTableIs(tracks: seq<PsTrack>)
    requires 10 + 4 * |tracks| < 0x1_0000
    ensures At(MapBytes(tracks), 12, MapEntriesBytes(tracks))
    ensures MapTable(MapBytes(tracks)) == Some(Table(12, 12 + 4 * |tracks|))
  {
    hide Crc.Crc32, MapEntriesBytes, MapTable, BE16;
    var d := MapBytes(tracks);
    var n := 4 * |tracks|;
    var p: bytes := [0, 0, 1, 0xbc] + BE16(10 + n) + [0xe0, 0xff] + BE16(0) + BE16(n);
    var rest := MapEntriesBytes(tracks) + Crc.Crc32(MapBody(tracks));
    Assoc(p, MapEntriesBytes(tracks), Crc.Crc32(MapBody(tracks)));
    assert d[12..12 + n] == MapEntriesBytes(tracks);
    MapHeader(p, rest, n);
  }

  lemma {:induction false} MapHeader(p: bytes, rest: bytes, n: nat)
    requires p == [0, 0, 1, 0xbc] + BE16(10 + n) + [0xe0, 0xff] + BE16(0) + BE16(n)
    requires 10 + n < 0x1_0000 && |rest| == n + 4
    ensures MapTable(p + rest) == Some(Table(12, 12 + n))
  {
    var d := p + rest;
    MapWords(p, n);
    hide BE16;
    assert |p| == 12 && d[..4] == [0, 0, 1, 0xbc];
    assert forall i :: 0 <= i < 12 ==> d[i] == p[i];
    assert U16(d, 4) == 10 + n && U16(d, 8) == 0 && U16(d, 10) == n;
  }

  lemma {:induction false} MapWords(p: bytes, n: nat)
    requires p == [0, 0, 1, 0xbc] + BE16(10 + n) + [0xe0, 0xff] + BE16(0) + BE16(n) && 10 + n < 0x1_0000
    ensures U16(p, 4) == 10 + n && U16(p, 8) == 0 && U16(p, 10) == n
  {
    LowWord(10 + n);
    LowWord(0);
    LowWord(n);
    var x, y, z := BE16(10 + n), BE16(0), BE16(n);
    assert p[4] == x[0] && p[5] == x[1] && p[8] == y[0] && p[9] == y[1] && p[10] == z[0] && p[11] == z[1];
  }

  // ---- arbitrary bytes ----

  /** Draining only removes bytes from the front, and every payload is a slice of what was buffered. */
  lemma {:induction false} DrainShrinks(buf: bytes, types: map<byte, byte>)
    ensures IsSuffix(Drain(buf, types).buf, buf)
    ensures forall p :: p in Drain(buf, types).pes ==> IsSlice(p.data, buf)
    decreases |buf|
  {
    var r := Next(buf, types);
    hide Next, IsSlice, IsSuffix;
    if r.pes.Some? {
      DrainShrinks(r.buf, r.types);
      var d := Drain(r.buf, r.types);
      IsSuffixTransitive(d.buf, r.buf, buf);
      forall p | p in d.pes
        ensures IsSlice(p.data, buf)
      {
        IsSliceOfSuffix(p.data, r.buf, buf);
      }
    }
  }

  /** The buffer never outgrows MAX_BUF when no single piece does. */
  lemma {:induction false} PendingIsBounded(buf: bytes, types: map<byte, byte>, pieces: seq<bytes>)
    requires |buf| <= MAX_BUF && forall p :: p in pieces ==> |p| <= MAX_BUF
    ensures |FeedPieces(buf, types, pieces).buf| <= MAX_BUF
    decreases |pieces|
  {
    hide Drain;
    if pieces != [] {
      DrainShrinks(Pushed(buf, pieces[0]), types);
      var d := Drain(Pushed(buf, pieces[0]), types);
      PendingIsBounded(d.buf, d.types, pieces[1..]);
    }
  }

  /** One push keeps the bound exactly if the pushed piece does: older bytes make room, the piece is never cut. */
  lemma {:induction false} PushKeepsBound(buf: bytes, piece: bytes)
    requires |buf| <= MAX_BUF
    ensures |Pushed(buf, piece)| <= MAX_BUF <==> |piece| <= MAX_BUF
    ensures IsSuffix(piece, Pushed(buf, piece))
  {
  }

  // ---- what a frame contributes ----

  function Joined(ps: seq<PesPacket>): bytes {
    if ps == [] then [] else ps[0].data + Joined(ps[1..])
  }

  lemma {:induction false} PesOfAppend(a: seq<Unit>, b: seq<Unit>)
    ensures PesOf(a + b) == PesOf(a) + PesOf(b)
  {
    if a == [] {
      assert a + b == b;
    } else {
      assert (a + b)[1..] == a[1..] + b;
      PesOfAppend(a[1..], b);
      Assoc(if a[0].Pes? then [PesPacket(a[0].track.streamId, a[0].payload, Some(a[0].pts))] else [],
            PesOf(a[1..]), PesOf(b));
    }
  }

  lemma {:induction false} PesOfHeaders(us: seq<Unit>)
    requires forall u :: u in us ==> !u.Pes?
    ensures PesOf(us) == []
  {
    if us != [] {
      PesOfHeaders(us[1..]);
    }
  }

  lemma {:induction false} PesOfChunks(t: PsTrack, pts: nat, dts: nat, chunks: seq<bytes>)
    ensures var ps := PesOf(PesUnits(t, pts, dts, chunks));
            && Joined(ps) == Concat(chunks)
            && forall p :: p in ps ==> p.streamId == t.streamId && p.pts == Some(pts)
    decreases |chunks|
  {
    var us := PesUnits(t, pts, dts, chunks);
    if chunks != [] {
      assert us[1..] == PesUnits(t, pts, dts, chunks[1..]);
      hide PesUnits;
      PesOfChunks(t, pts, dts, chunks[1..]);
    }
  }

  /** The packets of one frame carry its elementary stream, whole and in order, under its track and its time. */
  lemma {:induction false} FrameIsCarried(s: State, f: MediaFrame)
    requires ValidAac(s.aac) && f.frameType != Metadata && !(f.codec == AAC && f.configFrame)
    ensures var out := Step(s, f);
            out.units.Ok? ==>
              && TrackOf(f.codec).Ok? && ElementaryPayload(f, s.aac).Ok?
              && Joined(PesOf(out.units.value)) == ElementaryPayload(f, s.aac).value
              && forall p :: p in PesOf(out.units.value) ==>
                   p.streamId == TrackOf(f.codec).value.streamId && p.pts == Some(f.pts * 90 % PTS_MODULUS)
  {
    hide ElementaryPayload, TrackOf;
    if TrackOf(f.codec).Ok? && ElementaryPayload(f, s.aac).Ok? {
      var t := TrackOf(f.codec).value;
      var s1 := WithTrack(s, t);
      var payload := ElementaryPayload(f, s.aac).value;
      if payload != [] {
        CarriedUnits(s1.tracks, s1.mapPending || (f.frameType == Video && f.keyFrame), t, f, payload);
      }
    }
  }

  lemma {:induction false} CarriedUnits(tracks: seq<PsTrack>, withMap: bool, t: PsTrack, f: MediaFrame, payload: bytes)
    ensures var ps := PesOf(FrameUnits(tracks, withMap, t, f, payload));
            && Joined(ps) == payload
            && forall p :: p in ps ==> p.streamId == t.streamId && p.pts == Some(Timestamp90k(f.pts))
  {
    hide PesOf, PesUnits, Chunks, Timestamp90k;
    var heads := [PackHeader(Timestamp90k(f.dts))] + if withMap then [SystemHeader(tracks), StreamMap(tracks)] else [];
    var chunks := Chunks(payload, MAX_PES_PAYLOAD);
    var packets := PesUnits(t, Timestamp90k(f.pts), Timestamp90k(f.dts), chunks);
    PesOfAppend(heads, packets);
    PesOfHeaders(heads);
    PesOfChunks(t, Timestamp90k(f.pts), Timestamp90k(f.dts), chunks);
    ChunksConcat(payload, MAX_PES_PAYLOAD);
    assert [] + PesOf(packets) == PesOf(packets);
  }

  // ---- what a run contributes ----

  /** The elementary stream of one frame, its stream and its time. */
  datatype Carried = Carried(streamId: byte, pts: nat, data: bytes)

  /** What a frame that meets the AAC parameters `aac` puts into the stream, if anything. */
  function Contribution(f: MediaFrame, aac: Option<AacConfig>): Option<Carried>
    requires ValidAac(aac)
  {
    if f.frameType == Metadata || TrackOf(f.codec).Err? || (f.codec == AAC && f.configFrame) then None
    else
      var payload := ElementaryPayload(f, aac);
      if payload.Err? || payload.value == [] then None
      else Some(Carried(TrackOf(f.codec).value.streamId, f.pts * 90 % PTS_MODULUS, payload.value))
  }

  /** The AAC parameters after a frame: a readable configuration replaces them. */
  function AacAfter(f: MediaFrame, aac: Option<AacConfig>): (r: Option<AacConfig>)
    requires ValidAac(aac)
    ensures ValidAac(r)
  {
    if f.frameType != Metadata && f.codec == AAC && f.configFrame && Payload.AacAsc(f).Ok?
    then ParseAacConfig(Payload.AacAsc(f).value) else aac
  }

  function Contributions(frames: seq<MediaFrame>, aac: Option<AacConfig>): seq<Carried>
    requires ValidAac(aac)
    decreases |frames|
  {
    if frames == [] then []
    else
      var first := Contribution(frames[0], aac);
      (if first.Some? then [first.value] else []) + Contributions(frames[1..], AacAfter(frames[0], aac))
  }

  /** The packets join to the elementary stream of one frame, under its stream and its time. */
  predicate CarryOne(ps: seq<PesPacket>, c: Carried) {
    ps != [] && Joined(ps) == c.data && forall p :: p in ps ==> p.streamId == c.streamId && p.pts == Some(c.pts)
  }

  /** The packets fall into consecutive groups, one for each frame, in order. */
  ghost predicate CarryAll(ps: seq<PesPacket>, cs: seq<Carried>)
    decreases |cs|
  {
    if cs == [] then ps == []
    else exists n :: 0 <= n <= |ps| && CarryOne(ps[..n], cs[0]) && CarryAll(ps[n..], cs[1..])
  }

  function DataOf(cs: seq<Carried>): bytes {
    if cs == [] then [] else cs[0].data + DataOf(cs[1..])
  }

  lemma {:induction false} CarryMore(a: seq<PesPacket>, c: Carried, b: seq<PesPacket>, cs: seq<Carried>)
    requires CarryOne(a, c) && CarryAll(b, cs)
    ensures CarryAll(a + b, [c] + cs)
  {
    var ps, all := a + b, [c] + cs;
    assert ps[..|a|] == a && ps[|a|..] == b && all[1..] == cs;
    hide CarryOne;
  }

  lemma {:induction false} JoinedAppend(a: seq<PesPacket>, b: seq<PesPacket>)
    ensures Joined(a + b) == Joined(a) + Joined(b)
  {
    if a == [] {
      assert a + b == b;
    } else {
      assert (a + b)[1..] == a[1..] + b;
      JoinedAppend(a[1..], b);
    }
  }

  /** In particular the packets as a whole carry all the elementary streams one after the other. */
  lemma {:induction false} CarryAllJoins(ps: seq<PesPacket>, cs: seq<Carried>)
    requires CarryAll(ps, cs)
    ensures Joined(ps) == DataOf(cs)
    decreases |cs|
  {
    hide *;
    if cs == [] {
      NothingJoins(ps);
    } else {
      var n := FirstGroup(ps, cs);
      CarryAllJoins(ps[n..], cs[1..]);
      JoinedAppend(ps[..n], ps[n..]);
      assert ps[..n] + ps[n..] == ps;
    }
  }

  lemma {:induction false} NothingJoins(ps: seq<PesPacket>)
    requires CarryAll(ps, [])
    ensures Joined(ps) == DataOf([])
  {
  }

  lemma {:induction false} FirstGroup(ps: seq<PesPacket>, cs: seq<Carried>) returns (n: nat)
    requires CarryAll(ps, cs) && cs != []
    ensures n <= |ps| && CarryAll(ps[n..], cs[1..])
    ensures DataOf(cs) == Joined(ps[..n]) + DataOf(cs[1..])
  {
    hide Joined;
    n :| 0 <= n <= |ps| && CarryOne(ps[..n], cs[0]) && CarryAll(ps[n..], cs[1..]);
  }

  /** One frame puts its contribution into the stream, and no packet without one. */
  lemma {:induction false} StepContributes(s: State, f: MediaFrame)
    requires ValidAac(s.aac)
    ensures var out := Step(s, f);
            var ps := PesOf(if out.units.Ok? then out.units.value else []);
            && out.state.aac == AacAfter(f, s.aac)
            && (if Contribution(f, s.aac).Some? then CarryOne(ps, Contribution(f, s.aac).value) else ps == [])
  {
    hide ElementaryPayload, Payload.AacAsc, ParseAacConfig, FrameUnits, ValidAac;
    if f.frameType != Metadata && !(f.codec == AAC && f.configFrame) {
      FrameIsCarried(s, f);
    }
  }

  /** Over every run the packets carry the contributions of the frames, in order. */
  lemma {:induction false} RunContributes(s: State, frames: seq<MediaFrame>)
    requires ValidAac(s.aac)
    ensures CarryAll(PesOf(Run(s, frames).units), Contributions(frames, s.aac))
    decreases |frames|
  {
    hide Step, Contribution, AacAfter, PesOf, CarryOne, CarryAll;
    if frames == [] {
      NothingCarried();
    } else {
      var out := Step(s, frames[0]);
      var us := if out.units.Ok? then out.units.value else [];
      var rest := Run(out.state, frames[1..]).units;
      StepContributes(s, frames[0]);
      RunContributes(out.state, frames[1..]);
      PesOfAppend(us, rest);
      if Contribution(frames[0], s.aac).Some? {
        CarryMore(PesOf(us), Contribution(frames[0], s.aac).value, PesOf(rest),
                  Contributions(frames[1..], AacAfter(frames[0], s.aac)));
      } else {
        var cs := Contributions(frames[1..], AacAfter(frames[0], s.aac));
        assert [] + PesOf(rest) == PesOf(rest) && [] + cs == cs;
      }
    }
  }

  lemma {:induction false} NothingCarried()
    ensures PesOf([]) == [] && CarryAll([], [])
  {
  }

  /** From a new muxer on: however its output is cut, the demuxer returns packets that carry, frame by frame and in
    * order, the elementary stream of every frame that has one, under its stream and its time, and nothing else. */
  lemma {:induction false} MuxedRunsRoundTrip(s: State, frames: seq<MediaFrame>, pieces: seq<bytes>)
    requires KnownTracks(s.tracks) && ValidAac(s.aac) && s.mapPending
    requires forall p :: p in pieces ==> |p| <= MAX_PIECE
    requires Concat(pieces) == EncodeAll(Run(s, frames).units)
    ensures var r := FeedPieces([], map[], pieces);
            && r.buf == [] && r.pes == PesOf(Run(s, frames).units)
            && CarryAll(r.pes, Contributions(frames, s.aac)) && Joined(r.pes) == DataOf(Contributions(frames, s.aac))
  {
    hide Contributions, CarryAll, Joined, DataOf, Run, FeedPieces, PesOf, TypesOf, EncodeAll;
    NewRunKeeps(s, frames);
    AnyCutRoundTrips(Run(s, frames).units, pieces);
    RunContributes(s, frames);
    CarryAllJoins(PesOf(Run(s, frames).units), Contributions(frames, s.aac));
  }
}
