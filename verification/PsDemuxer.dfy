/** The incremental MPEG program-stream demuxer of crates/codec/src/ps.rs.
  *
  * Every parser is written twice: as a function, which says what is parsed, and as the
  * position-driven loop of the source, proved to compute that function. The class holds
  * the buffer and the stream types the loops advance.
  */
module PsDemux {
  import opened Bytes

  const MAX_BUF: nat := 4 * 1024 * 1024

  datatype PesPacket = PesPacket(streamId: byte, data: bytes, pts: Option<nat>)

  datatype PsError = InvalidStartCode | InvalidPesHeader

  /** `Result<Option<(PesPacket, usize)>, PsError>`. */
  datatype Parse = Incomplete | Invalid(error: PsError) | Complete(pes: PesPacket, consumed: nat)

  // ---- start codes ----

  predicate IsPsEntity(id: byte) {
    id >= 0xB9
  }

  /** A three-byte start code at `i`, followed by an id. */
  predicate CodeAt(d: bytes, i: nat) {
    i + 4 <= |d| && d[i] == 0 && d[i + 1] == 0 && d[i + 2] == 1
  }

  /** A four-byte start code at `i` whose id is that of a PS entity. */
  predicate LongEntityAt(d: bytes, i: nat) {
    i + 5 <= |d| && d[i] == 0 && d[i + 1] == 0 && d[i + 2] == 0 && d[i + 3] == 1 && IsPsEntity(d[i + 4])
  }

  predicate ShortEntityAt(d: bytes, i: nat) {
    CodeAt(d, i) && IsPsEntity(d[i + 3])
  }

  predicate EntityAt(d: bytes, i: nat) {
    ShortEntityAt(d, i) || LongEntityAt(d, i)
  }

  /** Where the scan of `find_start_code` stops; it resumes four bytes after a NAL start code. */
  function StartCodeFrom(d: bytes, i: nat): (r: Option<nat>)
    ensures r.Some? ==> i <= r.value && r.value + 4 <= |d| && EntityAt(d, r.value)
    decreases |d| - i
  {
    if i + 4 > |d| then None
    else if CodeAt(d, i) then (if IsPsEntity(d[i + 3]) then Some(i) else StartCodeFrom(d, i + 4))
    else if LongEntityAt(d, i) then Some(i)
    else StartCodeFrom(d, i + 1)
  }

  method FindStartCode(d: bytes, from: nat) returns (r: Option<nat>)
    ensures r == StartCodeFrom(d, from)
    ensures r.Some? ==> from <= r.value && EntityAt(d, r.value)
  {
    var i := from;
    while i + 4 <= |d|
      invariant StartCodeFrom(d, from) == StartCodeFrom(d, i)
      decreases |d| - i
    {
      if CodeAt(d, i) {
        if IsPsEntity(d[i + 3]) {
          return Some(i);
        }
        i := i + 4;
        continue;
      }
      if LongEntityAt(d, i) {
        return Some(i);
      }
      i := i + 1;
    }
    return None;
  }

  /** The first entity at or after `i`. */
  ghost predicate FirstEntityAt(d: bytes, i: nat, k: nat) {
    i <= k && ShortEntityAt(d, k) && forall j: nat :: i <= j < k ==> !ShortEntityAt(d, j)
  }

  /** How many start codes lie back to back before `k`, each overlapping the id of the one before: 00 00 01 00 00 01. */
  function Chain(d: bytes, i: nat, k: nat): nat {
    if i + 3 <= k && CodeAt(d, k - 3) then 1 + Chain(d, i, k - 3) else 0
  }

  lemma {:induction false} ChainStep(d: bytes, i: nat, k: nat)
    requires i < k && !CodeAt(d, i)
    ensures Chain(d, i, k) == Chain(d, i + 1, k)
  {
    if i + 4 <= k && CodeAt(d, k - 3) {
      ChainStep(d, i, k - 3);
    }
  }

  lemma {:induction false} ChainJump(d: bytes, i: nat, k: nat)
    requires i + 4 <= k && CodeAt(d, i)
    ensures Chain(d, i, k) % 2 == Chain(d, i + 4, k) % 2
  {
    if i + 7 <= k {
      if CodeAt(d, k - 3) {
        ChainJump(d, i, k - 3);
      }
    } else if k == i + 6 {
      assert Chain(d, i, i + 3) == 1;
    }
  }

  /** The scan stops at the first entity, or on the zero before it, if and only if an even number of overlapping
    * start codes leads up to it: each pair of them is skipped as a whole, and one left over hides the entity. */
  lemma {:induction false} ScanFindsFirstEntity(d: bytes, i: nat, k: nat)
    requires FirstEntityAt(d, i, k)
    ensures StartCodeFrom(d, i).Some? && StartCodeFrom(d, i).value <= k <==> Chain(d, i, k) % 2 == 0
    decreases k - i
  {
    if i < k && !LongEntityAt(d, i) {
      if CodeAt(d, i) {
        if i + 4 <= k {
          ChainJump(d, i, k);
          ScanFindsFirstEntity(d, i + 4, k);
        } else {
          assert k == i + 3;
        }
      } else {
        ChainStep(d, i, k);
        ScanFindsFirstEntity(d, i + 1, k);
      }
    } else if i < k {
      assert ShortEntityAt(d, i + 1);
    }
  }

  /** With one overlap the entity is missed: the pack header code at offset 3 is skipped. */
  lemma {:induction false} ScanCanMissAnEntity()
    ensures var d: bytes := [0, 0, 1, 0, 0, 1, 0xBA];
            EntityAt(d, 3) && StartCodeFrom(d, 0) == None
  {
    var d: bytes := [0, 0, 1, 0, 0, 1, 0xBA];
    assert Chain(d, 0, 3) == 1;
    ScanFindsFirstEntity(d, 0, 3);
  }

  // ---- pack header, system header and program stream map ----

  function LeadingHeaderLen(d: bytes): (r: Option<nat>)
    ensures r.Some? ==> 6 <= r.value <= |d| && CodeAt(d, 0)
  {
    if !CodeAt(d, 0) then None
    else if d[3] == 0xBA then
      if |d| < 14 || |d| < 14 + d[13] % 8 then None else Some(14 + d[13] % 8)
    else if d[3] == 0xBB || d[3] == 0xBC then
      if |d| < 6 || |d| < 6 + U16(d, 4) then None else Some(6 + U16(d, 4))
    else None
  }

  /** One entry of a program stream map. */
  datatype StreamInfo = StreamInfo(streamId: byte, streamType: byte)

  /** The (stream_id, stream_type) entries between `off` and `end`. */
  function MapEntries(d: bytes, off: nat, end: nat): (r: seq<StreamInfo>)
    requires end <= |d|
    decreases end - off
  {
    if off + 4 > end then []
    else [StreamInfo(d[off + 1], d[off])] + MapEntries(d, off + 4 + U16(d, off + 2) % 0x1000, end)
  }

  datatype Table = Table(off: nat, end: nat)

  /** Offset and end of the elementary stream table, if the map holds one. */
  function MapTable(d: bytes): (r: Option<Table>)
    ensures r.Some? ==> r.value.end <= |d|
  {
    if |d| < 16 || d[..4] != [0, 0, 1, 0xBC] then None
    else
      var mapEnd := Min(6 + U16(d, 4), |d|);
      var at := 10 + U16(d, 8);
      if at + 2 > mapEnd then None
      else Some(Table(at + 2, Min(at + 2 + U16(d, at), mapEnd - 4)))
  }

  function MapStreams(d: bytes): seq<StreamInfo> {
    match MapTable(d)
    case None => []
    case Some(Table(off, end)) => MapEntries(d, off, end)
  }

  lemma {:induction false} MapEntriesStep(d: bytes, off: nat, end: nat)
    requires end <= |d|
    ensures off + 4 > end ==> MapEntries(d, off, end) == []
    ensures off + 4 <= end ==>
              MapEntries(d, off, end)
              == [StreamInfo(d[off + 1], d[off])] + MapEntries(d, off + 4 + U16(d, off + 2) % 0x1000, end)
  {
    hide U16;
  }

  method ParseProgramStreamMap(d: bytes) returns (streams: seq<StreamInfo>)
    ensures streams == MapStreams(d)
  {
    hide MapTable, MapEntries, U16;
    streams := [];
    var table := MapTable(d);
    if table.None? {
      return;
    }
    var offset, end := table.value.off, table.value.end;
    while offset + 4 <= end
      invariant MapStreams(d) == streams + MapEntries(d, offset, end)
      decreases end - offset
    {
      MapEntriesStep(d, offset, end);
      streams := streams + [StreamInfo(d[offset + 1], d[offset])];
      offset := offset + 4 + U16(d, offset + 2) % 0x1000;
    }
    MapEntriesStep(d, offset, end);
  }

  // ---- PES packets ----

  /** The 33-bit timestamp whose five bytes start at `p`. */
  function DecodeTimestamp(d: bytes, p: nat): (r: nat)
    requires p + 5 <= |d|
  {
    d[p] as int / 2 % 8 * 0x4000_0000 + d[p + 1] as int * 0x40_0000 + d[p + 2] as int / 2 * 0x8000
    + d[p + 3] as int * 0x80 + d[p + 4] as int / 2
  }

  /** Where the payload that starts at `from` ends; a zero length runs to the next start code. */
  function PayloadEnd(d: bytes, from: nat): (r: Option<nat>)
    requires 6 <= |d|
    ensures r.Some? && U16(d, 4) == 0 ==> from < r.value < |d|
  {
    if U16(d, 4) != 0 then Some(6 + U16(d, 4))
    else
      match StartCodeFrom(d, from)
      case Some(sc) => if sc > from then Some(sc) else None
      case None => None
  }

  function ParsePes(d: bytes): (r: Parse)
    ensures r.Complete? ==> 0 < r.consumed <= |d| && IsSlice(r.pes.data, d)
  {
    if |d| < 9 || |d| < 6 + U16(d, 4) then Incomplete
    else if d[6] / 0x40 != 2 then Invalid(InvalidPesHeader)
    else
      var hdrEnd: nat := 9 + d[8] as int;
      if hdrEnd > |d| then Incomplete
      else
        var pts := if d[7] / 0x40 >= 2 && 14 <= |d| then Some(DecodeTimestamp(d, 9)) else None;
        match PayloadEnd(d, hdrEnd)
        case None => Incomplete
        case Some(end) =>
          assert At(d, hdrEnd, d[hdrEnd..if hdrEnd < end then end else hdrEnd]);
          Complete(PesPacket(d[3], d[hdrEnd..if hdrEnd < end then end else hdrEnd], pts), end)
  }

  /** The packet found from `pos` on, skipping headers and unknown start codes. */
  function ParseFrom(d: bytes, pos: nat): (r: Parse)
    ensures r.Complete? ==> pos < r.consumed <= |d| && IsSlice(r.pes.data, d)
    decreases |d| - pos
  {
    if pos + 4 > |d| then Incomplete
    else if !CodeAt(d, pos) then Invalid(InvalidStartCode)
    else
      var sc := d[pos + 3];
      if sc == 0xBA then
        if pos + 14 > |d| then Incomplete else ParseFrom(d, pos + 14 + d[pos + 13] % 8)
      else if sc == 0xBB || sc == 0xBC then
        if pos + 6 > |d| then Incomplete else ParseFrom(d, pos + 6 + U16(d, pos + 4))
      else if sc >= 0xC0 then
        match ParsePes(d[pos..])
        case Complete(pes, consumed) =>
          assert IsSuffix(d[pos..], d);
          IsSliceOfSuffix(pes.data, d[pos..], d);
          Complete(pes, pos + consumed)
        case other => other
      else
        match StartCodeFrom(d, pos + 4)
        case Some(next) => ParseFrom(d, next)
        case None => Incomplete
  }

  function ParseOne(d: bytes): (r: Parse)
    ensures r.Complete? ==> 0 < r.consumed <= |d| && IsSlice(r.pes.data, d)
  {
    if |d| < 6 then Incomplete else ParseFrom(d, 0)
  }

  method ParseOnePes(d: bytes) returns (r: Parse)
    ensures r == ParseOne(d)
  {
    if |d| < 6 {
      return Incomplete;
    }
    var pos := 0;
    while pos + 4 <= |d|
      invariant ParseOne(d) == ParseFrom(d, pos)
      decreases |d| - pos
    {
      if !CodeAt(d, pos) {
        return Invalid(InvalidStartCode);
      }
      var sc := d[pos + 3];
      if sc == 0xBA {
        if pos + 14 > |d| {
          return Incomplete;
        }
        pos := pos + 14 + d[pos + 13] % 8;
      } else if sc == 0xBB || sc == 0xBC {
        if pos + 6 > |d| {
          return Incomplete;
        }
        pos := pos + 6 + U16(d, pos + 4);
      } else if sc >= 0xC0 {
        r := ParsePes(d[pos..]);
        return if r.Complete? then Complete(r.pes, pos + r.consumed) else r;
      } else {
        var next := FindStartCode(d, pos + 4);
        if next.None? {
          return Incomplete;
        }
        pos := next.value;
      }
    }
    return Incomplete;
  }

  // ---- the demuxer ----

  function Declare(types: map<byte, byte>, streams: seq<StreamInfo>): map<byte, byte>
    decreases |streams|
  {
    if streams == [] then types else Declare(types[streams[0].streamId := streams[0].streamType], streams[1..])
  }

  /** The stream types after a header has been read. */
  function TypesAfter(types: map<byte, byte>, header: bytes): map<byte, byte> {
    if 4 <= |header| && header[3] == 0xBC then Declare(types, MapStreams(header)) else types
  }

  datatype Demuxed = Demuxed(buf: bytes, types: map<byte, byte>, pes: Option<PesPacket>)

  /** What one call of `next_pes` leaves and returns. */
  function Next(buf: bytes, types: map<byte, byte>): (r: Demuxed)
    ensures IsSuffix(r.buf, buf)
    ensures r.pes.Some? ==> |r.buf| < |buf| && IsSlice(r.pes.value.data, buf)
    decreases |buf|
  {
    match LeadingHeaderLen(buf)
    case Some(n) => Resume(buf, n, TypesAfter(types, buf[..n]))
    case None =>
      match ParseOne(buf)
      case Complete(pes, consumed) => Demuxed(buf[consumed..], types, Some(pes))
      case Incomplete => Demuxed(buf, types, None)
      case Invalid(_) =>
        match StartCodeFrom(buf, 0)
        case Some(sc) => Resume(buf, if sc == 0 then 1 else sc, types)
        case None => Demuxed([], types, None)
  }

  /** `next_pes` continued after dropping `n` bytes. */
  function Resume(buf: bytes, n: nat, types: map<byte, byte>): (r: Demuxed)
    requires 0 < n <= |buf|
    ensures IsSuffix(r.buf, buf)
    ensures r.pes.Some? ==> |r.buf| < |buf| && IsSlice(r.pes.value.data, buf)
    decreases |buf|, 0
  {
    var r := Next(buf[n..], types);
    IsSuffixTransitive(r.buf, buf[n..], buf);
    if r.pes.Some? then IsSliceOfSuffix(r.pes.value.data, buf[n..], buf); r else r
  }

  class PsDemuxer {
    var buf: bytes
    var streamTypes: map<byte, byte>

    constructor ()
      ensures buf == [] && streamTypes == map[]
    {
      buf, streamTypes := [], map[];
    }

    /** Keeps the newest bytes when the buffer would exceed MAX_BUF. */
    method Push(data: bytes)
      modifies this`buf
      ensures buf == Pushed(old(buf), data)
    {
      if |buf| + |data| > MAX_BUF {
        var drop := |buf| + |data| - MAX_BUF;
        buf := Drop(buf, Min(drop, |buf|));
      }
      buf := buf + data;
    }

    /** Adds the streams a complete leading map declares. */
    method Learn(header: bytes)
      modifies this`streamTypes
      ensures streamTypes == TypesAfter(old(streamTypes), header)
    {
      if 4 <= |header| && header[3] == 0xBC {
        var streams := ParseProgramStreamMap(header);
        var i := 0;
        while i < |streams|
          invariant i <= |streams|
          invariant Declare(old(streamTypes), streams) == Declare(streamTypes, streams[i..])
        {
          assert streams[i..][1..] == streams[i + 1..];
          streamTypes := streamTypes[streams[i].streamId := streams[i].streamType];
          i := i + 1;
        }
      }
    }

    method NextPes() returns (r: Option<PesPacket>)
      modifies this
      ensures Demuxed(buf, streamTypes, r) == Next(old(buf), old(streamTypes))
      ensures IsSuffix(buf, old(buf))
      ensures r.Some? ==> |buf| < |old(buf)| && IsSlice(r.value.data, old(buf))
    {
      while true
        invariant Next(buf, streamTypes) == Next(old(buf), old(streamTypes))
        decreases |buf|
      {
        var n := LeadingHeaderLen(buf);
        while n.Some?
          invariant n == LeadingHeaderLen(buf)
          invariant Next(buf, streamTypes) == Next(old(buf), old(streamTypes))
          invariant |buf| <= |old(buf)|
          decreases |buf|
        {
          Learn(buf[..n.value]);
          buf := buf[n.value..];
          n := LeadingHeaderLen(buf);
        }
        var parsed := ParseOnePes(buf);
        match parsed {
          case Complete(pes, consumed) =>
            buf := buf[consumed..];
            return Some(pes);
          case Incomplete =>
            // No leading header is complete here, so there is none left to drop.
            return None;
          case Invalid(_) =>
            var sc := FindStartCode(buf, 0);
            if sc.None? {
              buf := [];
              return None;
            }
            buf := buf[if sc.value == 0 then 1 else sc.value..];
        }
      }
    }

    function Pending(): nat
      reads this
    {
      |buf|
    }
  }

  function Pushed(buf: bytes, data: bytes): (r: bytes)
    ensures |data| <= MAX_BUF ==> |r| <= MAX_BUF
    ensures |buf| + |data| <= MAX_BUF ==> r == buf + data
  {
    (if |buf| + |data| > MAX_BUF then Drop(buf, Min(|buf| + |data| - MAX_BUF, |buf|)) else buf) + data
  }
}
