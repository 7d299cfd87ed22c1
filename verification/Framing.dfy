/** Conversion between Annex-B and length-prefixed access units (crates/core/src/payload.rs). */
module NalFraming {
  import opened Bytes
  import opened Frames
  import opened NalUnits

  /** `annex_b_to_length_prefixed` as a function. */
  function ToLengthPrefixed(d: bytes): Result<bytes> {
    if Nals(d) == [] then Err(Codec) else Ok(LengthPrefixed(Nals(d)))
  }

  lemma {:induction false} LengthPrefixedAppend(a: seq<bytes>, n: bytes)
    ensures LengthPrefixed(a + [n]) == LengthPrefixed(a) + (BE32(|n|) + n)
  {
    if a == [] {
      assert [n][1..] == [];
    } else {
      assert (a + [n])[1..] == a[1..] + [n];
      LengthPrefixedAppend(a[1..], n);
    }
  }

  method AnnexBToLengthPrefixed(d: bytes) returns (r: Result<bytes>)
    ensures r == ToLengthPrefixed(d)
  {
    hide Nals, LengthPrefixed, BE32;
    var ranges := AnnexBNaluRanges(d);
    if |ranges| == 0 {
      return Err(Codec);
    }
    NothingPrefixed(Nals(d));
    var out := [];
    var k := 0;
    while k < |ranges|
      invariant k <= |ranges|
      invariant out == LengthPrefixed(Nals(d)[..k])
    {
      LengthPrefixedNext(Nals(d), k);
      var nalu := d[ranges[k].from..ranges[k].to];
      assert Nals(d)[k] == nalu;
      Assoc(out, BE32(|nalu|), nalu);
      out := out + BE32(|nalu|) + nalu;
      k := k + 1;
    }
    assert Nals(d)[..k] == Nals(d);
    return Ok(out);
  }

  lemma {:induction false} NothingPrefixed(ns: seq<bytes>)
    ensures LengthPrefixed(ns[..0]) == []
  {
  }

  lemma {:induction false} LengthPrefixedNext(ns: seq<bytes>, k: nat)
    requires k < |ns|
    ensures LengthPrefixed(ns[..k + 1]) == LengthPrefixed(ns[..k]) + (BE32(|ns[k]|) + ns[k])
  {
    hide LengthPrefixed, BE32;
    assert ns[..k + 1] == ns[..k] + [ns[k]];
    LengthPrefixedAppend(ns[..k], ns[k]);
  }

  /** The units behind the 32-bit lengths from `pos` on; none if a length is zero or overruns. */
  function Parse(d: bytes, pos: nat): (r: Option<seq<bytes>>)
    requires pos <= |d|
    decreases |d| - pos
  {
    if pos + 4 > |d| then (if pos == |d| then Some([]) else None)
    else
      var end := pos + 4 + U32(d, pos);
      if end == pos + 4 || end > |d| then None
      else
        match Parse(d, end)
        case None => None
        case Some(rest) => Some([d[pos + 4..end]] + rest)
  }

  /** `length_prefixed_to_annex_b` as a function. */
  function ToAnnexB(d: bytes): Result<bytes> {
    match Parse(d, 0)
    case None => Err(Codec)
    case Some(ns) => if ns == [] then Err(Codec) else Ok(AnnexB4(ns))
  }

  /** One unit of the loop below. */
  lemma {:induction false} ParseStep(d: bytes, pos: nat)
    requires pos + 4 <= |d|
    ensures var end := pos + 4 + U32(d, pos);
            Parse(d, pos)
            == if end == pos + 4 || end > |d| || Parse(d, end) == None then None
               else Some([d[pos + 4..end]] + Parse(d, end).value)
  {
  }

  lemma {:induction false} AnnexB4Append(a: seq<bytes>, n: bytes)
    ensures AnnexB4(a + [n]) == AnnexB4(a) + (CODE + n)
  {
    if a == [] {
      assert [n][1..] == [];
    } else {
      assert (a + [n])[1..] == a[1..] + [n];
      AnnexB4Append(a[1..], n);
    }
  }

  method LengthPrefixedToAnnexB(d: bytes) returns (r: Result<bytes>)
    ensures r == ToAnnexB(d)
  {
    var pos := 0;
    var out: bytes := [];
    ghost var units: seq<bytes> := [];
    assert AnnexB4([]) == [];
    hide AnnexB4, Parse, U32;
    while pos + 4 <= |d|
      invariant pos <= |d|
      invariant Parse(d, pos) == None ==> Parse(d, 0) == None
      invariant Parse(d, pos).Some? ==> Parse(d, 0).Some? && Parse(d, 0).value == units + Parse(d, pos).value
      invariant out == AnnexB4(units)
      invariant 4 * |units| <= |out| && (|units| == 0 ==> |out| == 0)
    {
      ParseStep(d, pos);
      var len := U32(d, pos);
      pos := pos + 4;
      if len == 0 || pos + len > |d| {
        return Err(Codec);
      }
      AnnexB4Append(units, d[pos..pos + len]);
      if Parse(d, pos + len).Some? {
        Snoc(units, d[pos..pos + len], Parse(d, pos + len).value);
      }
      units := units + [d[pos..pos + len]];
      out := out + (CODE + d[pos..pos + len]);
      pos := pos + len;
    }
    ParseEnd(d, pos);
    if pos != |d| || |out| == 0 {
      return Err(Codec);
    }
    Snoc(units, [], []);
    return Ok(out);
  }

  lemma {:induction false} ParseEnd(d: bytes, pos: nat)
    requires pos <= |d| < pos + 4
    ensures Parse(d, pos) == if pos == |d| then Some([]) else None
  {
  }

  // ---- the conversions undo each other ----

  predicate Sized(ns: seq<bytes>) {
    forall n :: n in ns ==> 0 < |n| < 0x1_0000_0000
  }

  lemma {:induction false} LengthPrefixedStep(ns: seq<bytes>)
    ensures LengthPrefixed(ns) == if ns == [] then [] else BE32(|ns[0]|) + (ns[0] + LengthPrefixed(ns[1..]))
  {
    hide BE32;
  }

  lemma {:induction false} SizedStep(ns: seq<bytes>)
    requires ns != [] && Sized(ns)
    ensures 0 < |ns[0]| < 0x1_0000_0000 && Sized(ns[1..])
  {
  }

  lemma {:induction false} ParseOfLengthPrefixed(d: bytes, pos: nat, ns: seq<bytes>)
    requires Sized(ns) && At(d, pos, LengthPrefixed(ns)) && pos + |LengthPrefixed(ns)| == |d|
    ensures Parse(d, pos) == Some(ns)
    decreases |ns|
  {
    hide *;
    LengthPrefixedStep(ns);
    if ns == [] {
      ParseEnd(d, pos);
    } else {
      var n := ns[0];
      SizedStep(ns);
      AtSplit(d, pos, BE32(|n|), n + LengthPrefixed(ns[1..]));
      U32At(d, pos, |n|);
      AtSplit(d, pos + 4, n, LengthPrefixed(ns[1..]));
      AtIs(d, pos + 4, n);
      ParseOfLengthPrefixed(d, pos + 4 + |n|, ns[1..]);
      ParseStep(d, pos);
      assert [n] + ns[1..] == ns;
    }
  }

  /** A buffer that parses is exactly the framing of its units. */
  lemma {:induction false} LengthPrefixedOfParse(d: bytes, pos: nat)
    requires pos <= |d| && Parse(d, pos).Some?
    ensures LengthPrefixed(Parse(d, pos).value) == d[pos..]
    ensures Sized(Parse(d, pos).value)
    decreases |d| - pos
  {
    if pos + 4 <= |d| {
      var end := pos + 4 + U32(d, pos);
      ParseStep(d, pos);
      LengthPrefixedOfParse(d, end);
      var rest := Parse(d, end).value;
      BE32OfU32(d, pos);
      assert ([d[pos + 4..end]] + rest)[1..] == rest;
      assert d[pos..] == d[pos..pos + 4] + d[pos + 4..end] + d[end..];
    }
  }

  lemma {:induction false} BE32OfU32(d: bytes, pos: nat)
    requires pos + 4 <= |d|
    ensures BE32(U32(d, pos)) == d[pos..pos + 4]
  {
    var a: int, b: int, c: int, e: int := d[pos], d[pos + 1], d[pos + 2], d[pos + 3];
    FourDigits(a, b, c, e);
    assert U32(d, pos) == 0x100_0000 * a + 0x1_0000 * b + 0x100 * c + e;
    hide U32;
  }

  lemma {:induction false} FourDigits(a: nat, b: nat, c: nat, e: nat)
    requires a < 0x100 && b < 0x100 && c < 0x100 && e < 0x100
    ensures var n := 0x100_0000 * a + 0x1_0000 * b + 0x100 * c + e;
            && n / 0x100_0000 % 0x100 == a && n / 0x1_0000 % 0x100 == b && n / 0x100 % 0x100 == c && n % 0x100 == e
  {
    DivMod(0x100_0000, a, 0x1_0000 * b + 0x100 * c + e);
    DivMod(0x1_0000, 0x100 * a + b, 0x100 * c + e);
    DivMod(0x100, 0x1_0000 * a + 0x100 * b + c, e);
    DivMod(0x100, a, b);
    DivMod(0x100, 0x100 * a + b, c);
  }

  /** Length-prefixed to Annex-B and back is the identity exactly when no unit holds 00 00 01. */
  lemma {:induction false} RoundTripExactlyWhenClean(d: bytes)
    requires ToAnnexB(d).Ok? && |d| < 0x1_0000_0000
    ensures ToLengthPrefixed(ToAnnexB(d).value) == Ok(d) <==> AllClean(Parse(d, 0).value)
  {
    var ns := Parse(d, 0).value;
    var a := AnnexB4(ns);
    LengthPrefixedOfParse(d, 0);
    NalsAreClean(a, None, 0);
    if AllClean(ns) {
      NalsOfAnnexB4(ns);
    } else if ToLengthPrefixed(a) == Ok(d) {
      NalsAreBounded(a, None, 0);
      SameLength(ns);
      ParseOfLengthPrefixed(d, 0, Nals(a));
    }
  }

  /** A unit with 00 00 01 inside does not come back. */
  lemma {:induction false} RoundTripCanFail()
    ensures var d: bytes := [0, 0, 0, 4, 0x65, 0, 0, 1];
            ToAnnexB(d).Ok? && ToLengthPrefixed(ToAnnexB(d).value) != Ok(d)
  {
    var d: bytes := [0, 0, 0, 4, 0x65, 0, 0, 1];
    UncleanUnit(d);
    RoundTripExactlyWhenClean(d);
  }

  lemma {:induction false} UncleanUnit(d: bytes)
    requires |d| == 8 && U32(d, 0) == 4 && Code3(d, 5)
    ensures Parse(d, 0) == Some([d[4..]]) && !AllClean([d[4..]])
  {
    var end := 4 + U32(d, 0);
    assert Parse(d, end) == Some([]) && d[4..end] == d[4..];
    assert [d[4..end]] + [] == [d[4..]];
    assert Code3(d[4..], 1) && d[4..] in [d[4..]];
  }

  lemma {:induction false} SameLength(ns: seq<bytes>)
    ensures |AnnexB4(ns)| == |LengthPrefixed(ns)|
  {
    if ns != [] {
      SameLength(ns[1..]);
    }
  }

  /** Annex-B to length-prefixed and back to Annex-B. */
  function Canonical(d: bytes): Result<bytes> {
    var lp :- ToLengthPrefixed(d);
    ToAnnexB(lp)
  }

  /** Canonicalising succeeds exactly when there is a unit, keeps every unit and is idempotent. */
  lemma {:induction false} CanonicalKeepsUnits(d: bytes)
    requires |d| < 0x1_0000_0000
    ensures Canonical(d).Ok? <==> Nals(d) != []
    ensures Canonical(d).Ok? ==> Nals(Canonical(d).value) == Nals(d)
    ensures Canonical(d).Ok? ==> Canonical(Canonical(d).value) == Canonical(d)
  {
    var ns := Nals(d);
    if ns != [] {
      NalsAreClean(d, None, 0);
      NalsAreBounded(d, None, 0);
      ParseOfLengthPrefixed(LengthPrefixed(ns), 0, ns);
      NalsOfAnnexB4(ns);
    }
  }
}
