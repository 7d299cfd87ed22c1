/** ISO BMFF boxes: the writer of crates/mp4/src/fmp4.rs and the reader of
  * crates/mp4/src/fragmented_demuxer.rs (section 4.2 of ISO/IEC 14496-12). */
module Boxes {
  import opened Bytes
  import opened Frames

  type FourCc = k: bytes | |k| == 4 witness [0, 0, 0, 0]

  /** `make_box`; the size is computed in 32 bits. */
  function MakeBox(kind: FourCc, body: bytes): (r: bytes)
    ensures |r| == 8 + |body|
  {
    BE32(8 + |body|) + kind + body
  }

  /** A box still to be written. */
  datatype Node = Node(kind: FourCc, body: bytes)

  ghost predicate Writable(n: Node) {
    8 + |n.body| < 0x1_0000_0000
  }

  ghost predicate AllWritable(ns: seq<Node>) {
    forall n :: n in ns ==> Writable(n)
  }

  function Encoded(ns: seq<Node>): bytes {
    if ns == [] then [] else MakeBox(ns[0].kind, ns[0].body) + Encoded(ns[1..])
  }

  /** A box found in the data: its kind, its first byte, its first payload byte and its end. */
  datatype View = View(kind: FourCc, start: nat, dataStart: nat, end: nat)

  ghost predicate Within(v: View, lo: nat, hi: nat) {
    lo <= v.start < v.dataStart <= v.end <= hi
  }

  /** The box at `off`: `None` in place of a size that cannot be read. */
  function ViewAt(data: bytes, off: nat, end: nat): (r: Result<View>)
    requires off + 8 <= end <= |data|
    ensures r.Ok? ==> r.value.start == off && off + 8 <= r.value.dataStart <= r.value.end <= end
  {
    var size32 := U32(data, off);
    var kind := data[off + 4..off + 8];
    if size32 == 1 then
      if off + 16 > |data| then Err(Codec)
      else
        var size := U64(data, off + 8);
        if size < 16 || off + size > end then Err(Codec) else Ok(View(kind, off, off + 16, off + size))
    else
      var size := if size32 == 0 then end - off else size32;
      if size < 8 || off + size > end then Err(Codec) else Ok(View(kind, off, off + 8, off + size))
  }

  /** The comparison of 64-bit sums gives the same answer as `ViewAt` if and only if the sum does not wrap to a
    * value inside the range. */
  lemma {:induction false} SizeCheckAgrees(off: nat, size: nat, end: nat)
    requires off <= end <= U64_MAX && size <= U64_MAX
    ensures ((off + size) % (U64_MAX + 1) > end <==> off + size > end)
            <==> off + size <= U64_MAX || off + size - (U64_MAX + 1) > end
  {
    if off + size > U64_MAX {
      DivMod(U64_MAX + 1, 1, off + size - (U64_MAX + 1));
    }
  }

  /** The boxes side by side from `off` to `end`. */
  function Views(data: bytes, off: nat, end: nat): (r: Result<seq<View>>)
    requires end <= |data|
    ensures r.Ok? ==> forall v :: v in r.value ==> Within(v, off, end)
    decreases end - off
  {
    if off + 8 > end then Ok([])
    else
      var v :- ViewAt(data, off, end);
      var rest :- Views(data, v.end, end);
      Ok([v] + rest)
  }

  lemma {:induction false} ViewsStep(data: bytes, off: nat, end: nat)
    requires off + 8 <= end <= |data|
    ensures ViewAt(data, off, end).Err? ==> Views(data, off, end) == ViewAt(data, off, end).PropagateFailure()
    ensures ViewAt(data, off, end).Ok? ==>
              var v := ViewAt(data, off, end).value;
              var rest := Views(data, v.end, end);
              Views(data, off, end) == if rest.Err? then rest else Ok([v] + rest.value)
  {
    hide ViewAt;
  }

  method Scan(data: bytes, start: nat, end: nat) returns (r: Result<seq<View>>)
    requires end <= |data|
    ensures r == Views(data, start, end)
  {
    hide Views, U32, U64, Within;
    var result := [];
    var offset := start;
    assert Views(data, start, end).Ok? ==> [] + Views(data, start, end).value == Views(data, start, end).value;
    while offset + 8 <= end
      invariant Views(data, start, end).Err? <==> Views(data, offset, end).Err?
      invariant Views(data, start, end).Err? ==> Views(data, start, end) == Views(data, offset, end)
      invariant Views(data, start, end).Ok? ==>
          Views(data, start, end).value == result + Views(data, offset, end).value
      decreases end - offset
    {
      ViewsStep(data, offset, end);
      var size32 := U32(data, offset);
      var kind := data[offset + 4..offset + 8];
      var header, size := 8, size32;
      if size32 == 0 {
        size := end - offset;
      } else if size32 == 1 {
        if offset + 16 > |data| {
          return Err(Codec);
        }
        header, size := 16, U64(data, offset + 8);
      }
      if size < header || offset + size > end {
        return Err(Codec);
      }
      var v := View(kind, offset, offset + header, offset + size);
      assert ViewAt(data, offset, end) == Ok(v);
      if Views(data, v.end, end).Ok? {
        Assoc(result, [v], Views(data, v.end, end).value);
      }
      result := result + [v];
      offset := offset + size;
    }
    ViewsEnd(data, offset, end);
    assert result + [] == result;
    return Ok(result);
  }

  lemma {:induction false} ViewsEnd(data: bytes, off: nat, end: nat)
    requires end <= |data| && off + 8 > end
    ensures Views(data, off, end) == Ok([])
  {
  }

  function First(vs: seq<View>, kind: FourCc): (r: Option<View>)
    ensures r.Some? ==> r.value in vs && r.value.kind == kind
  {
    if vs == [] then None else if vs[0].kind == kind then Some(vs[0]) else First(vs[1..], kind)
  }

  function Filtered(vs: seq<View>, kind: FourCc): (r: seq<View>)
    ensures forall v :: v in r ==> v in vs && v.kind == kind
  {
    if vs == [] then []
    else (if vs[0].kind == kind then [vs[0]] else []) + Filtered(vs[1..], kind)
  }

  function Child(data: bytes, parent: View, kind: FourCc): (r: Result<Option<View>>)
    requires parent.end <= |data|
    ensures r.Ok? && r.value.Some? ==> Within(r.value.value, parent.dataStart, parent.end)
  {
    var vs :- Views(data, parent.dataStart, parent.end);
    Ok(First(vs, kind))
  }

  function Descendant(data: bytes, parent: View, path: seq<FourCc>): (r: Result<Option<View>>)
    requires parent.end <= |data|
    ensures r.Ok? && r.value.Some? ==> r.value.value.end <= |data|
    ensures r.Ok? && r.value.Some? && path != [] ==> Within(r.value.value, parent.dataStart, parent.end)
    decreases |path|
  {
    if path == [] then Ok(Some(parent))
    else
      var next :- Child(data, parent, path[0]);
      if next.None? then Ok(None) else Descendant(data, next.value, path[1..])
  }

  // ---- reading back what was written ----

  /** The views of boxes written side by side from `off` on. */
  function ViewsOf(ns: seq<Node>, off: nat): (r: seq<View>)
    ensures |r| == |ns|
  {
    if ns == [] then []
    else [View(ns[0].kind, off, off + 8, off + 8 + |ns[0].body|)] + ViewsOf(ns[1..], off + 8 + |ns[0].body|)
  }

  lemma {:induction false} BoxIsRead(data: bytes, off: nat, end: nat, n: Node)
    requires Writable(n) && At(data, off, MakeBox(n.kind, n.body)) && off + 8 + |n.body| <= end <= |data|
    ensures ViewAt(data, off, end) == Ok(View(n.kind, off, off + 8, off + 8 + |n.body|))
    ensures At(data, off + 8, n.body)
  {
    BoxFields(data, off, n);
    AtIs(data, off + 4, n.kind);
    hide At, U32, U64;
  }

  lemma {:induction false} BoxFields(data: bytes, off: nat, n: Node)
    requires Writable(n) && At(data, off, MakeBox(n.kind, n.body))
    ensures off + 8 + |n.body| <= |data|
    ensures U32(data, off) == 8 + |n.body| && At(data, off + 4, n.kind) && At(data, off + 8, n.body)
  {
    hide At, BE32, U32;
    var size := BE32(8 + |n.body|);
    Assoc(size, n.kind, n.body);
    AtIs(data, off, MakeBox(n.kind, n.body));
    AtSplit(data, off, size, n.kind + n.body);
    AtSplit(data, off + 4, n.kind, n.body);
    U32At(data, off, 8 + |n.body|);
  }

  /** Boxes written side by side are found again, in order, wherever they lie in the data. */
  lemma {:induction false} EncodedIsRead(data: bytes, off: nat, ns: seq<Node>)
    requires AllWritable(ns) && At(data, off, Encoded(ns))
    ensures off + |Encoded(ns)| <= |data|
    ensures Views(data, off, off + |Encoded(ns)|) == Ok(ViewsOf(ns, off))
    decreases |ns|
  {
    hide At, Views, ViewAt, MakeBox, Writable;
    AtIs(data, off, Encoded(ns));
    var end := off + |Encoded(ns)|;
    if ns == [] {
      ViewsEnd(data, off, end);
    } else {
      EncodedSplit(ns);
      var box := MakeBox(ns[0].kind, ns[0].body);
      AtSplit(data, off, box, Encoded(ns[1..]));
      BoxIsRead(data, off, end, ns[0]);
      EncodedIsRead(data, off + |box|, ns[1..]);
      ViewsStep(data, off, end);
    }
  }

  lemma {:induction false} EncodedSplit(ns: seq<Node>)
    requires ns != []
    ensures Encoded(ns) == MakeBox(ns[0].kind, ns[0].body) + Encoded(ns[1..])
    ensures |MakeBox(ns[0].kind, ns[0].body)| == 8 + |ns[0].body|
  {
  }

  /** Each box of a written list lies at its view. */
  lemma {:induction false} BoxLiesAt(data: bytes, off: nat, ns: seq<Node>, i: nat)
    requires AllWritable(ns) && At(data, off, Encoded(ns)) && i < |ns|
    ensures var v := ViewsOf(ns, off)[i];
            && v.kind == ns[i].kind && off <= v.start && v.dataStart == v.start + 8
            && v.end == v.dataStart + |ns[i].body|
            && v.end <= off + |Encoded(ns)| <= |data|
            && At(data, v.start, MakeBox(ns[i].kind, ns[i].body)) && At(data, v.dataStart, ns[i].body)
    decreases i
  {
    hide At, MakeBox, Writable;
    AtIs(data, off, Encoded(ns));
    EncodedSplit(ns);
    var box := MakeBox(ns[0].kind, ns[0].body);
    AtSplit(data, off, box, Encoded(ns[1..]));
    if i == 0 {
      BoxFields(data, off, ns[0]);
    } else {
      BoxLiesAt(data, off + |box|, ns[1..], i - 1);
    }
  }
}
