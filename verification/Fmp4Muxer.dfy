/** The fragmented MP4 writer (crates/mp4/src/fmp4.rs). */
module Fmp4Mux {
  import opened Bytes
  import opened Frames
  import opened Boxes

  const STYP: FourCc := [0x73, 0x74, 0x79, 0x70]
  const MOOF: FourCc := [0x6d, 0x6f, 0x6f, 0x66]
  const MDAT: FourCc := [0x6d, 0x64, 0x61, 0x74]
  const MFHD: FourCc := [0x6d, 0x66, 0x68, 0x64]
  const TRAF: FourCc := [0x74, 0x72, 0x61, 0x66]
  const TFHD: FourCc := [0x74, 0x66, 0x68, 0x64]
  const TFDT: FourCc := [0x74, 0x66, 0x64, 0x74]
  const TRUN: FourCc := [0x74, 0x72, 0x75, 0x6e]
  const MSDH: FourCc := [0x6d, 0x73, 0x64, 0x68]
  const MSIX: FourCc := [0x6d, 0x73, 0x69, 0x78]
  const ISO6: FourCc := [0x69, 0x73, 0x6f, 0x36]
  const CMFC: FourCc := [0x63, 0x6d, 0x66, 0x63]

  const RUN_FLAGS: nat := 0x701
  const SYNC_FLAGS: nat := 0x0200_0000
  const DELTA_FLAGS: nat := 0x0101_0000

  datatype Sample = Sample(data: bytes, timestamp: u32, duration: u32, sync: bool)

  // ---- one media segment ----

  function Row(s: Sample): (r: bytes)
    ensures |r| == 12
  {
    BE32(s.duration) + BE32(|s.data|) + BE32(if s.sync then SYNC_FLAGS else DELTA_FLAGS)
  }

  function Rows(samples: seq<Sample>): (r: bytes)
    ensures |r| == 12 * |samples|
  {
    if samples == [] then [] else Row(samples[0]) + Rows(samples[1..])
  }

  function Payloads(samples: seq<Sample>): bytes {
    if samples == [] then [] else samples[0].data + Payloads(samples[1..])
  }

  function TfhdNode(trackId: nat): Node {
    Node(TFHD, BE32(0x02_0000) + BE32(trackId))
  }

  function TfdtNode(start: nat): Node {
    Node(TFDT, BE32(0x100_0000) + BE64(start))
  }

  function TrunNode(samples: seq<Sample>, dataOffset: nat): Node {
    Node(TRUN, BE32(RUN_FLAGS) + BE32(|samples|) + BE32(dataOffset) + Rows(samples))
  }

  function TrafNode(trackId: nat, start: nat, samples: seq<Sample>, dataOffset: nat): Node {
    Node(TRAF, Encoded([TfhdNode(trackId), TfdtNode(start), TrunNode(samples, dataOffset)]))
  }

  function MfhdNode(sequence: nat): Node {
    Node(MFHD, BE32(0) + BE32(sequence))
  }

  /** The track fragments: video as track 1 and audio as track 2, each only if it has samples. */
  function Trafs(start: nat, video: seq<Sample>, audio: seq<Sample>, dataOffset: nat): seq<Node> {
    (if video == [] then [] else [TrafNode(1, start, video, dataOffset)])
    + if audio == [] then [] else [TrafNode(2, start, audio, dataOffset + |Payloads(video)|)]
  }

  function MoofNode(sequence: nat, start: nat, video: seq<Sample>, audio: seq<Sample>, dataOffset: nat): Node {
    Node(MOOF, Encoded([MfhdNode(sequence)] + Trafs(start, video, audio, dataOffset)))
  }

  const STYP_NODE := Node(STYP, MSDH + MSIX + ISO6 + CMFC)

  /** The size of a track fragment box, and of the `moof` box, whatever offset is written into them. */
  function TrafSize(samples: seq<Sample>): nat {
    if samples == [] then 0 else 8 + 16 + 20 + 20 + 12 * |samples|
  }

  function MoofSize(video: seq<Sample>, audio: seq<Sample>): nat {
    8 + 16 + TrafSize(video) + TrafSize(audio)
  }

  /** Media data starts right behind the `moof` box and the header of `mdat`. */
  function SegmentNodes(sequence: nat, start: nat, video: seq<Sample>, audio: seq<Sample>): seq<Node> {
    [STYP_NODE, MoofNode(sequence, start, video, audio, MoofSize(video, audio) + 8),
     Node(MDAT, Payloads(video) + Payloads(audio))]
  }

  lemma {:induction false} EncodedOne(n: Node)
    ensures Encoded([n]) == MakeBox(n.kind, n.body)
  {
    assert [n][1..] == [];
  }

  lemma {:induction false} EncodedTwo(a: Node, b: Node)
    ensures Encoded([a, b]) == MakeBox(a.kind, a.body) + MakeBox(b.kind, b.body)
  {
    assert [a, b][1..] == [b];
    EncodedOne(b);
  }

  lemma {:induction false} EncodedThree(a: Node, b: Node, c: Node)
    ensures Encoded([a, b, c]) == MakeBox(a.kind, a.body) + MakeBox(b.kind, b.body) + MakeBox(c.kind, c.body)
  {
    assert [a, b, c][1..] == [b, c];
    EncodedTwo(b, c);
  }

  lemma {:induction false} TrafIsSized(trackId: nat, start: nat, samples: seq<Sample>, dataOffset: nat)
    ensures samples != [] ==> 8 + |TrafNode(trackId, start, samples, dataOffset).body| == TrafSize(samples)
  {
    hide BE32, BE64, Rows, Encoded, MakeBox;
    EncodedThree(TfhdNode(trackId), TfdtNode(start), TrunNode(samples, dataOffset));
  }

  /** The two passes over `moof` agree: its length does not depend on the offset written into it. */
  lemma {:induction false} MoofIsSized(sequence: nat, start: nat, video: seq<Sample>, audio: seq<Sample>,
                                       dataOffset: nat)
    ensures 8 + |MoofNode(sequence, start, video, audio, dataOffset).body| == MoofSize(video, audio)
  {
    hide BE32, TrafNode, MakeBox, Encoded, Payloads;
    var m := MfhdNode(sequence);
    var v := TrafNode(1, start, video, dataOffset);
    var a := TrafNode(2, start, audio, dataOffset + |Payloads(video)|);
    TrafIsSized(1, start, video, dataOffset);
    TrafIsSized(2, start, audio, dataOffset + |Payloads(video)|);
    var nodes := [m] + Trafs(start, video, audio, dataOffset);
    if video == [] && audio == [] {
      assert nodes == [m];
      EncodedOne(m);
    } else if audio == [] {
      assert nodes == [m, v];
      EncodedTwo(m, v);
    } else if video == [] {
      assert nodes == [m, a];
      EncodedTwo(m, a);
    } else {
      assert nodes == [m, v, a];
      EncodedThree(m, v, a);
    }
  }

  // ---- the builders ----

  lemma {:induction false} RowsAppend(a: seq<Sample>, s: Sample)
    ensures Rows(a + [s]) == Rows(a) + Row(s)
  {
    hide Row;
    if a == [] {
      assert [s][1..] == [] && a + [s] == [s];
    } else {
      assert (a + [s])[1..] == a[1..] + [s];
      RowsAppend(a[1..], s);
    }
  }

  lemma {:induction false} RowsNext(samples: seq<Sample>, i: nat)
    requires i < |samples|
    ensures Rows(samples[..i + 1]) == Rows(samples[..i]) + Row(samples[i])
  {
    hide Rows, Row;
    assert samples[..i + 1] == samples[..i] + [samples[i]];
    RowsAppend(samples[..i], samples[i]);
  }

  method BuildTraf(trackId: nat, start: nat, samples: seq<Sample>, dataOffset: nat) returns (r: bytes)
    ensures r == MakeBox(TRAF, TrafNode(trackId, start, samples, dataOffset).body)
  {
    hide BE32, BE64, MakeBox, Rows, Encoded;
    var tfhd := BE32(0x02_0000) + BE32(trackId);
    var traf := MakeBox(TFHD, tfhd);
    var tfdt := BE32(0x100_0000) + BE64(start);
    traf := traf + MakeBox(TFDT, tfdt);
    var head := BE32(RUN_FLAGS) + BE32(|samples|) + BE32(dataOffset);
    var trun := head;
    var i := 0;
    assert samples[..0] == [] && |Rows([])| == 0;
    while i < |samples|
      invariant i <= |samples|
      invariant trun == head + Rows(samples[..i])
    {
      var s := samples[i];
      RowsNext(samples, i);
      var row := BE32(s.duration) + BE32(|s.data|) + BE32(if s.sync then SYNC_FLAGS else DELTA_FLAGS);
      Assoc(head, Rows(samples[..i]), row);
      trun := trun + row;
      i := i + 1;
    }
    assert samples[..i] == samples;
    traf := traf + MakeBox(TRUN, trun);
    EncodedThree(TfhdNode(trackId), TfdtNode(start), TrunNode(samples, dataOffset));
    return MakeBox(TRAF, traf);
  }

  lemma {:induction false} PayloadsAppend(a: seq<Sample>, s: Sample)
    ensures Payloads(a + [s]) == Payloads(a) + s.data
  {
    if a == [] {
      assert [s][1..] == [] && a + [s] == [s];
    } else {
      assert (a + [s])[1..] == a[1..] + [s];
      PayloadsAppend(a[1..], s);
    }
  }

  lemma {:induction false} PayloadsNext(samples: seq<Sample>, i: nat)
    requires i < |samples|
    ensures Payloads(samples[..i + 1]) == Payloads(samples[..i]) + samples[i].data
    ensures Payloads(samples[..0]) == []
  {
    assert samples[..i + 1] == samples[..i] + [samples[i]];
    PayloadsAppend(samples[..i], samples[i]);
  }

  method AppendPayloads(mdat: bytes, samples: seq<Sample>) returns (r: bytes)
    ensures r == mdat + Payloads(samples)
  {
    hide Payloads;
    r := mdat;
    var i := 0;
    assert Payloads(samples[..0]) == [] by { PayloadsEmpty(samples); }
    while i < |samples|
      invariant i <= |samples| && r == mdat + Payloads(samples[..i])
    {
      PayloadsNext(samples, i);
      Assoc(mdat, Payloads(samples[..i]), samples[i].data);
      r := r + samples[i].data;
      i := i + 1;
    }
    assert samples[..i] == samples;
  }

  lemma {:induction false} PayloadsEmpty(samples: seq<Sample>)
    ensures Payloads(samples[..0]) == []
  {
  }

  method BuildMdat(video: seq<Sample>, audio: seq<Sample>) returns (r: bytes)
    ensures r == Payloads(video) + Payloads(audio)
  {
    r := AppendPayloads([], video);
    assert [] + Payloads(video) == Payloads(video);
    r := AppendPayloads(r, audio);
  }

  method TotalSize(samples: seq<Sample>) returns (n: nat)
    ensures n == |Payloads(samples)|
  {
    hide Payloads;
    n := 0;
    PayloadsEmpty(samples);
    var i := 0;
    while i < |samples|
      invariant i <= |samples| && n == |Payloads(samples[..i])|
    {
      PayloadsNext(samples, i);
      n := n + |samples[i].data|;
      i := i + 1;
    }
    assert samples[..i] == samples;
  }

  method BuildMoof(sequence: nat, start: nat, video: seq<Sample>, audio: seq<Sample>, dataOffset: nat)
    returns (r: bytes)
    ensures r == MakeBox(MOOF, MoofNode(sequence, start, video, audio, dataOffset).body)
  {
    hide BE32, TrafNode, MakeBox, Encoded, Payloads;
    ghost var m := MfhdNode(sequence);
    ghost var v := TrafNode(1, start, video, dataOffset);
    ghost var a := TrafNode(2, start, audio, dataOffset + |Payloads(video)|);
    var mfhd := BE32(0) + BE32(sequence);
    var moof := MakeBox(MFHD, mfhd);
    if video != [] {
      var traf := BuildTraf(1, start, video, dataOffset);
      moof := moof + traf;
    }
    if audio != [] {
      var videoSize := TotalSize(video);
      var traf := BuildTraf(2, start, audio, dataOffset + videoSize);
      moof := moof + traf;
    }
    TrafKind(1, start, video, dataOffset);
    TrafKind(2, start, audio, dataOffset + |Payloads(video)|);
    ghost var nodes := [m] + Trafs(start, video, audio, dataOffset);
    if video == [] && audio == [] {
      assert nodes == [m];
      EncodedOne(m);
    } else if audio == [] {
      assert nodes == [m, v];
      EncodedTwo(m, v);
    } else if video == [] {
      assert nodes == [m, a];
      EncodedTwo(m, a);
    } else {
      assert nodes == [m, v, a];
      EncodedThree(m, v, a);
    }
    return MakeBox(MOOF, moof);
  }

  lemma {:induction false} TrafKind(trackId: nat, start: nat, samples: seq<Sample>, dataOffset: nat)
    ensures TrafNode(trackId, start, samples, dataOffset).kind == TRAF
  {
  }

  /** Two passes: the first `moof` only measures, the second carries the data offset. */
  method BuildMediaSegment(sequence: nat, start: nat, video: seq<Sample>, audio: seq<Sample>) returns (r: bytes)
    ensures r == Encoded(SegmentNodes(sequence, start, video, audio))
  {
    hide MoofNode, MakeBox, Encoded, Payloads;
    r := MakeBox(STYP, MSDH + MSIX + ISO6 + CMFC);
    var mdat := BuildMdat(video, audio);
    var provisional := BuildMoof(sequence, start, video, audio, 0);
    MoofIsSized(sequence, start, video, audio, 0);
    var moof := BuildMoof(sequence, start, video, audio, |provisional| + 8);
    ghost var node := MoofNode(sequence, start, video, audio, MoofSize(video, audio) + 8);
    assert node.kind == MOOF by { MoofKind(sequence, start, video, audio, MoofSize(video, audio) + 8); }
    EncodedThree(STYP_NODE, node, Node(MDAT, mdat));
    r := r + moof;
    r := r + MakeBox(MDAT, mdat);
  }

  lemma {:induction false} MoofKind(sequence: nat, start: nat, video: seq<Sample>, audio: seq<Sample>, dataOffset: nat)
    ensures MoofNode(sequence, start, video, audio, dataOffset).kind == MOOF
  {
  }
}
