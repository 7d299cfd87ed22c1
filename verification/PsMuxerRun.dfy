/** The stateful part of crates/core/src/ps.rs: `PsMuxer::mux_frame` and what whole runs of it keep. */
module PsMuxer {
  import opened Bytes
  import opened Frames
  import opened Payload
  import opened PsMux

  /** Input to `PsMuxer::new`. */
  datatype TrackInfo = VideoTrack(codec: CodecId) | AudioTrack(codec: CodecId, sampleRate: u32, channels: u32)

  function WithTrack(s: State, t: PsTrack): State {
    if t in s.tracks then s else s.(tracks := s.tracks + [t], mapPending := true)
  }

  function FrameUnits(tracks: seq<PsTrack>, withMap: bool, t: PsTrack, f: MediaFrame, payload: bytes): seq<Unit> {
    [PackHeader(Timestamp90k(f.dts))]
    + (if withMap then [SystemHeader(tracks), StreamMap(tracks)] else [])
    + PesUnits(t, Timestamp90k(f.pts), Timestamp90k(f.dts), Chunks(payload, MAX_PES_PAYLOAD))
  }

  datatype Output = Output(state: State, units: Result<seq<Unit>>)

  function Emit(s: State, t: PsTrack, f: MediaFrame, payload: bytes): Output {
    if payload == [] then Output(s, Ok([]))
    else
      var withMap := s.mapPending || (f.frameType == Video && f.keyFrame);
      Output(if withMap then s.(mapPending := false) else s, Ok(FrameUnits(s.tracks, withMap, t, f, payload)))
  }

  /** One call of `mux_frame`: the new state and what it writes. An error still keeps a new track. */
  function Step(s: State, f: MediaFrame): (r: Output)
    requires ValidAac(s.aac)
    ensures ValidAac(r.state.aac)
  {
    if f.frameType == Metadata then Output(s, Ok([]))
    else
      match TrackOf(f.codec)
      case Err(e) => Output(s, Err(e))
      case Ok(t) =>
        var s1 := WithTrack(s, t);
        if f.codec == AAC && f.configFrame then
          match AacAsc(f)
          case Err(e) => Output(s1, Err(e))
          case Ok(asc) => Output(s1.(aac := ParseAacConfig(asc)), Ok([]))
        else
          match ElementaryPayload(f, s1.aac)
          case Err(e) => Output(s1, Err(e))
          case Ok(p) => Emit(s1, t, f, p)
  }

  const SAMPLE_RATES: seq<u32> :=
    [96_000, 88_200, 64_000, 48_000, 44_100, 32_000, 24_000, 22_050, 16_000, 12_000, 11_025, 8_000, 7_350]

  /** The first index of `x`, or the length if there is none. */
  function IndexOf(s: seq<u32>, x: u32): (r: nat)
    ensures r <= |s|
  {
    if s == [] || s[0] == x then 0 else 1 + IndexOf(s[1..], x)
  }

  function AacFromTrack(sampleRate: u32, channels: u32): (r: Option<AacConfig>)
    ensures ValidAac(r)
  {
    var i := IndexOf(SAMPLE_RATES, sampleRate);
    if i == |SAMPLE_RATES| then None else Some(AacConfig(1, i, Min(channels, 7)))
  }

  /** The state of a new muxer for the announced tracks. */
  function NewState(infos: seq<TrackInfo>): State {
    if infos == [] then State([], None, true)
    else
      var s, t := NewState(infos[..|infos| - 1]), infos[|infos| - 1];
      var track := TrackOf(t.codec);
      State(if track.Ok? && track.value !in s.tracks then s.tracks + [track.value] else s.tracks,
            if t.AudioTrack? && t.codec == AAC then AacFromTrack(t.sampleRate, t.channels) else s.aac, true)
  }

  lemma {:induction false} NewStateStep(infos: seq<TrackInfo>, i: nat)
    requires i < |infos|
    ensures var s, t := NewState(infos[..i]), infos[i];
            var track := TrackOf(t.codec);
            NewState(infos[..i + 1])
            == State(if track.Ok? && track.value !in s.tracks then s.tracks + [track.value] else s.tracks,
                     if t.AudioTrack? && t.codec == AAC then AacFromTrack(t.sampleRate, t.channels) else s.aac, true)
  {
    hide TrackOf, AacFromTrack;
    assert infos[..i + 1][..i] == infos[..i];
  }

  lemma {:induction false} NoTracks()
    ensures KnownTracks([])
  {
  }

  class PsMuxer {
    var tracks: seq<PsTrack>
    var aacConfig: Option<AacConfig>
    var mapPending: bool

    ghost predicate Valid()
      reads this
    {
      ValidAac(aacConfig) && KnownTracks(tracks)
    }

    ghost function Fields(): State
      reads this
    {
      State(tracks, aacConfig, mapPending)
    }

    /** Unsupported codecs are left out and no track is listed twice. */
    constructor (infos: seq<TrackInfo>)
      ensures Valid() && Fields() == NewState(infos)
    {
      hide TrackOf, KnownTracks, AacFromTrack;
      tracks, aacConfig, mapPending := [], None, true;
      new;
      assert KnownTracks([]) by { NoTracks(); }
      var i := 0;
      assert infos[..0] == [];
      while i < |infos|
        invariant i <= |infos| && Valid() && Fields() == NewState(infos[..i])
      {
        NewStateStep(infos, i);
        AddCodec(infos[i].codec);
        if infos[i].AudioTrack? && infos[i].codec == AAC {
          aacConfig := AacFromTrack(infos[i].sampleRate, infos[i].channels);
        }
        i := i + 1;
      }
      assert infos[..i] == infos;
    }

    method AddCodec(codec: CodecId)
      requires Valid()
      modifies this`tracks
      ensures Valid()
      ensures tracks == if TrackOf(codec).Ok? && TrackOf(codec).value !in old(tracks)
                        then old(tracks) + [TrackOf(codec).value] else old(tracks)
    {
      var t := TrackOf(codec);
      if t.Ok? && t.value !in tracks {
        KnownTracksGrow(tracks, codec);
        tracks := tracks + [t.value];
      }
    }

    method MuxFrame(f: MediaFrame) returns (r: Result<bytes>)
      requires Valid()
      modifies this
      ensures Valid()
      ensures var step := Step(old(Fields()), f);
              && Fields() == step.state
              && r == if step.units.Err? then Err(step.units.error) else Ok(EncodeAll(step.units.value))
    {
      hide TrackOf, AacAsc, ElementaryPayload, Emit, ParseAacConfig, EncodeAll, KnownTracks;
      EncodeNothing();
      if f.frameType == Metadata {
        return Ok([]);
      }
      var t := TrackOf(f.codec);
      if t.Err? {
        return Err(t.error);
      }
      if t.value !in tracks {
        KnownTracksGrow(tracks, f.codec);
        tracks := tracks + [t.value];
        mapPending := true;
      }
      if f.codec == AAC && f.configFrame {
        var asc := AacAsc(f);
        if asc.Err? {
          return Err(asc.error);
        }
        aacConfig := ParseAacConfig(asc.value);
        return Ok([]);
      }
      var payload := ElementaryPayload(f, aacConfig);
      if payload.Err? {
        return Err(payload.error);
      }
      EmitNothing(Fields(), t.value, f);
      if payload.value == [] {
        return Ok([]);
      }
      r := EmitBytes(t.value, f, payload.value);
    }

    method EmitBytes(t: PsTrack, f: MediaFrame, payload: bytes) returns (r: Result<bytes>)
      requires Valid() && payload != []
      modifies this`mapPending
      ensures var out := Emit(old(Fields()), t, f, payload);
              Fields() == out.state && out.units.Ok? && r == Ok(EncodeAll(out.units.value))
    {
      hide Timestamp90k, PackHeaderBytes, SystemHeaderBytes, MapBytes, EncodeAll, FrameUnits, PesUnits, Chunks;
      var output := WritePackHeader(Timestamp90k(f.dts));
      var withMap := mapPending || (f.frameType == Video && f.keyFrame);
      FrameUnitsBytes(tracks, withMap, t, f, payload);
      if withMap {
        var system := WriteSystemHeader(tracks);
        var streamMap := WriteStreamMap(tracks);
        output := output + system + streamMap;
        mapPending := false;
      }
      var packets := WritePes(t, f, payload);
      assert output + packets == EncodeAll(FrameUnits(tracks, withMap, t, f, payload));
      return Ok(output + packets);
    }

    /** The payload cut into PES packets. */
    method WritePes(t: PsTrack, f: MediaFrame, payload: bytes) returns (output: bytes)
      ensures output
              == EncodeAll(PesUnits(t, Timestamp90k(f.pts), Timestamp90k(f.dts), Chunks(payload, MAX_PES_PAYLOAD)))
    {
      hide Timestamp90k, PesBytes, EncodeAll, PesUnits, Chunks;
      var rest := payload;
      output := [];
      var pts, dts := Timestamp90k(f.pts), Timestamp90k(f.dts);
      while |rest| > 0
        invariant EncodeAll(PesUnits(t, pts, dts, Chunks(payload, MAX_PES_PAYLOAD)))
                  == output + EncodeAll(PesUnits(t, pts, dts, Chunks(rest, MAX_PES_PAYLOAD)))
        decreases |rest|
      {
        var n := Min(|rest|, MAX_PES_PAYLOAD);
        PesUnitsStep(t, pts, dts, rest);
        Assoc(output, PesBytes(t.streamId, pts, dts, rest[..n]),
              EncodeAll(PesUnits(t, pts, dts, Chunks(rest[n..], MAX_PES_PAYLOAD))));
        output := output + PesBytes(t.streamId, pts, dts, rest[..n]);
        rest := rest[n..];
      }
      PesUnitsEnd(t, pts, dts, rest);
    }
  }

  lemma {:induction false} EncodeNothing()
    ensures EncodeAll([]) == []
  {
  }

  lemma {:induction false} EmitNothing(s: State, t: PsTrack, f: MediaFrame)
    ensures Emit(s, t, f, []) == Output(s, Ok([]))
  {
  }

  lemma {:induction false} PesUnitsStep(t: PsTrack, pts: nat, dts: nat, rest: bytes)
    requires rest != []
    ensures var n := Min(|rest|, MAX_PES_PAYLOAD);
            EncodeAll(PesUnits(t, pts, dts, Chunks(rest, MAX_PES_PAYLOAD)))
            == PesBytes(t.streamId, pts, dts, rest[..n])
               + EncodeAll(PesUnits(t, pts, dts, Chunks(rest[n..], MAX_PES_PAYLOAD)))
  {
    hide PesBytes;
    var n := Min(|rest|, MAX_PES_PAYLOAD);
    var us := PesUnits(t, pts, dts, Chunks(rest, MAX_PES_PAYLOAD));
    assert rest[..n] == Chunks(rest, MAX_PES_PAYLOAD)[0];
    assert us[1..] == PesUnits(t, pts, dts, Chunks(rest[n..], MAX_PES_PAYLOAD));
  }

  lemma {:induction false} PesUnitsEnd(t: PsTrack, pts: nat, dts: nat, rest: bytes)
    requires |rest| == 0
    ensures EncodeAll(PesUnits(t, pts, dts, Chunks(rest, MAX_PES_PAYLOAD))) == []
  {
  }

  lemma {:induction false} FrameUnitsBytes(tracks: seq<PsTrack>, withMap: bool, t: PsTrack, f: MediaFrame,
                                           payload: bytes)
    ensures EncodeAll(FrameUnits(tracks, withMap, t, f, payload))
            == PackHeaderBytes(Timestamp90k(f.dts))
               + (if withMap then SystemHeaderBytes(tracks) + MapBytes(tracks) else [])
               + EncodeAll(PesUnits(t, Timestamp90k(f.pts), Timestamp90k(f.dts), Chunks(payload, MAX_PES_PAYLOAD)))
  {
    hide Timestamp90k, PackHeaderBytes, SystemHeaderBytes, MapBytes, PesUnits, Chunks;
    var pes := PesUnits(t, Timestamp90k(f.pts), Timestamp90k(f.dts), Chunks(payload, MAX_PES_PAYLOAD));
    var pack := [PackHeader(Timestamp90k(f.dts))];
    var tables := if withMap then [SystemHeader(tracks), StreamMap(tracks)] else [];
    EncodeAllAppend(pack + tables, pes);
    EncodeAllAppend(pack, tables);
    assert EncodeAll(pack) == PackHeaderBytes(Timestamp90k(f.dts)) + EncodeAll([]);
    if withMap {
      assert tables[1..] == [StreamMap(tracks)] && tables[1..][1..] == [];
      assert EncodeAll(tables[1..]) == MapBytes(tracks) + EncodeAll([]);
    }
  }

  // ---- tracks ----

  const CODECS: set<CodecId> := {H264, H265, AAC, G711A, G711U, MP2A, Mp3}

  ghost predicate KnownTracks(tracks: seq<PsTrack>) {
    && (forall t :: t in tracks ==> exists c :: c in CODECS && TrackOf(c) == Ok(t))
    && (forall i, j :: 0 <= i < j < |tracks| ==> tracks[i] != tracks[j])
  }

  lemma {:induction false} KnownTracksGrow(tracks: seq<PsTrack>, codec: CodecId)
    requires KnownTracks(tracks) && TrackOf(codec).Ok? && TrackOf(codec).value !in tracks
    ensures KnownTracks(tracks + [TrackOf(codec).value])
  {
    assert codec in CODECS;
  }

  lemma {:induction false} FewTracks(tracks: seq<PsTrack>)
    requires KnownTracks(tracks)
    ensures |tracks| <= 7
  {
    var known := set c | c in CODECS :: TrackOf(c).value;
    assert known == {TrackOf(H264).value, TrackOf(H265).value, TrackOf(AAC).value, TrackOf(G711A).value,
                     TrackOf(G711U).value, TrackOf(MP2A).value, TrackOf(Mp3).value};
    assert |known| <= 7;
    DistinctInSet(tracks, known);
  }

  lemma {:induction false} DistinctInSet<T>(s: seq<T>, u: set<T>)
    requires forall x :: x in s ==> x in u
    requires forall i, j :: 0 <= i < j < |s| ==> s[i] != s[j]
    ensures |s| <= |u|
  {
    if s != [] {
      DistinctInSet(s[1..], u - {s[0]});
    }
  }

  // ---- whole runs ----

  datatype Ran = Ran(state: State, units: seq<Unit>)

  /** `mux_frame` over a list of frames; a frame that fails writes nothing. */
  function Run(s: State, frames: seq<MediaFrame>): Ran
    requires ValidAac(s.aac)
    decreases |frames|
  {
    if frames == [] then Ran(s, [])
    else
      var out := Step(s, frames[0]);
      var rest := Run(out.state, frames[1..]);
      Ran(rest.state, (if out.units.Ok? then out.units.value else []) + rest.units)
  }

  /** What a reader needs of a unit: lengths that fit their fields and 33-bit clocks. */
  predicate Fits(u: Unit) {
    match u
    case PackHeader(scr) => scr < PTS_MODULUS
    case SystemHeader(tracks) => |tracks| <= 7
    case StreamMap(tracks) => |tracks| <= 7
    case Pes(track, pts, dts, payload) =>
      track.streamId in {VIDEO_STREAM_ID, AUDIO_STREAM_ID} && pts < PTS_MODULUS && dts < PTS_MODULUS
      && 0 < |payload| <= MAX_PES_PAYLOAD
  }

  predicate AllFit(us: seq<Unit>) {
    forall i :: 0 <= i < |us| ==> Fits(us[i])
  }

  /** An earlier map lists the track of the packet at `i`. */
  ghost predicate Announced(us: seq<Unit>, i: nat)
    requires i < |us| && us[i].Pes?
  {
    exists j :: 0 <= j < i && us[j].StreamMap? && us[i].track in us[j].tracks
  }

  /** No packet is ever written before a map that lists its track. */
  ghost predicate MapFirst(us: seq<Unit>) {
    forall i :: 0 <= i < |us| && us[i].Pes? ==> Announced(us, i)
  }

  /** The muxer's invariant against everything it has written. */
  ghost predicate Inv(s: State, us: seq<Unit>) {
    && KnownTracks(s.tracks)
    && ValidAac(s.aac)
    && AllFit(us)
    && MapFirst(us)
    && (!s.mapPending ==> exists j :: 0 <= j < |us| && us[j] == StreamMap(s.tracks))
  }

  /** More units may follow if all their packets are of one track, and the map at `m` before them lists it. */
  lemma {:induction false} MapFirstAppend(us: seq<Unit>, more: seq<Unit>, t: PsTrack, m: nat)
    requires MapFirst(us) && m < |us + more| && (us + more)[m].StreamMap? && t in (us + more)[m].tracks
    requires forall i :: 0 <= i < |more| && more[i].Pes? ==> m < |us| + i && more[i].track == t
    ensures MapFirst(us + more)
  {
    var all := us + more;
    forall i | 0 <= i < |all| && all[i].Pes?
      ensures Announced(all, i)
    {
      if i < |us| {
        assert Announced(us, i);
        var j :| 0 <= j < i && us[j].StreamMap? && us[i].track in us[j].tracks;
        assert all[j] == us[j];
      } else {
        assert all[i] == more[i - |us|];
      }
    }
  }

  lemma {:induction false} FrameUnitsFit(tracks: seq<PsTrack>, withMap: bool, t: PsTrack, f: MediaFrame, payload: bytes)
    requires KnownTracks(tracks) && t in tracks
    ensures var more := FrameUnits(tracks, withMap, t, f, payload);
            && AllFit(more)
            && (forall i :: 0 <= i < |more| && more[i].Pes? ==> (withMap ==> 2 < i) && more[i].track == t)
            && (withMap ==> 2 < |more| && more[2] == StreamMap(tracks))
  {
    hide Timestamp90k, Chunks, KnownTracks;
    FewTracks(tracks);
    StreamIds(tracks);
    ChunksConcat(payload, MAX_PES_PAYLOAD);
  }

  lemma {:induction false} AllFitAppend(a: seq<Unit>, b: seq<Unit>)
    requires AllFit(a) && AllFit(b)
    ensures AllFit(a + b)
  {
    hide Fits;
  }

  lemma {:induction false} EmitKeeps(s: State, t: PsTrack, f: MediaFrame, payload: bytes, us: seq<Unit>)
    requires Inv(s, us) && t in s.tracks
    ensures Inv(Emit(s, t, f, payload).state, us + Emit(s, t, f, payload).units.value)
  {
    hide FrameUnits, KnownTracks, AllFit, MapFirst;
    assert us + [] == us;
    if payload != [] {
      var withMap := s.mapPending || (f.frameType == Video && f.keyFrame);
      var more := FrameUnits(s.tracks, withMap, t, f, payload);
      FrameUnitsFit(s.tracks, withMap, t, f, payload);
      AllFitAppend(us, more);
      var m: int := |us| + 2;
      if !withMap {
        m :| 0 <= m < |us| && us[m] == StreamMap(s.tracks);
      }
      assert (us + more)[m] == StreamMap(s.tracks);
      MapFirstAppend(us, more, t, m);
    }
  }

  lemma {:induction false} StreamIds(tracks: seq<PsTrack>)
    requires KnownTracks(tracks)
    ensures forall t :: t in tracks ==> t.streamId in {VIDEO_STREAM_ID, AUDIO_STREAM_ID}
  {
  }

  lemma {:induction false} StepKeeps(s: State, f: MediaFrame, us: seq<Unit>)
    requires Inv(s, us)
    ensures var out := Step(s, f);
            Inv(out.state, us + if out.units.Ok? then out.units.value else [])
  {
    assert us + [] == us;
    if f.frameType != Metadata && TrackOf(f.codec).Ok? {
      var t := TrackOf(f.codec).value;
      var s1 := WithTrack(s, t);
      if t !in s.tracks {
        KnownTracksGrow(s.tracks, f.codec);
      }
      hide TrackOf, ElementaryPayload, Emit;
      if !(f.codec == AAC && f.configFrame) && ElementaryPayload(f, s1.aac).Ok? {
        EmitKeeps(s1, t, f, ElementaryPayload(f, s1.aac).value, us);
      }
    }
  }

  /** Every run writes units that fit and puts a map listing its track before every packet. */
  lemma {:induction false} RunKeeps(s: State, frames: seq<MediaFrame>, us: seq<Unit>)
    requires Inv(s, us)
    ensures Inv(Run(s, frames).state, us + Run(s, frames).units)
    decreases |frames|
  {
    hide Inv;
    if frames == [] {
      assert us + [] == us;
    } else {
      InvAac(s, us);
      StepKeeps(s, frames[0], us);
      var out := Step(s, frames[0]);
      var written := if out.units.Ok? then out.units.value else [];
      RunKeeps(out.state, frames[1..], us + written);
      Assoc(us, written, Run(out.state, frames[1..]).units);
    }
  }

  lemma {:induction false} InvAac(s: State, us: seq<Unit>)
    requires Inv(s, us)
    ensures ValidAac(s.aac)
  {
  }

  /** From a new muxer on. */
  lemma {:induction false} NewRunKeeps(s: State, frames: seq<MediaFrame>)
    requires KnownTracks(s.tracks) && ValidAac(s.aac) && s.mapPending
    ensures AllFit(Run(s, frames).units) && MapFirst(Run(s, frames).units)
  {
    RunKeeps(s, frames, []);
    assert [] + Run(s, frames).units == Run(s, frames).units;
  }
}
