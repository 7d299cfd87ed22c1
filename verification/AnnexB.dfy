/** NAL units behind Annex-B start codes and behind 32-bit lengths.
  *
  * Four scanners in the repository cut an Annex-B byte stream: `annex_b_nalu_ranges` in
  * crates/core/src/payload.rs, `annex_b_nalus` in crates/core/src/rtp.rs and `parse_annexb` in
  * crates/codec/src/h264.rs and h265.rs. All four are proved to return `Nals(d)`.
  */
module NalUnits {
  import opened Bytes

  predicate Code3(d: bytes, i: nat) {
    i + 3 <= |d| && d[i] == 0 && d[i + 1] == 0 && d[i + 2] == 1
  }

  predicate Code4(d: bytes, i: nat) {
    i + 4 <= |d| && d[i] == 0 && d[i + 1] == 0 && d[i + 2] == 0 && d[i + 3] == 1
  }

  /** Length of the start code at `i`, zero if there is none. */
  function CodeLen(d: bytes, i: nat): (r: nat)
    ensures r > 0 ==> i + r <= |d|
  {
    if Code4(d, i) then 4 else if Code3(d, i) then 3 else 0
  }

  /** The order in which the two codes are tested does not matter. */
  lemma {:induction false} CodeLenIs(d: bytes, i: nat)
    ensures CodeLen(d, i) == if Code3(d, i) then 3 else if Code4(d, i) then 4 else 0
  {
  }

  /** The first start code at or after `i`, or the end of the data. */
  function NextCode(d: bytes, i: nat): (r: nat)
    requires i <= |d|
    ensures i <= r <= |d|
    ensures r < |d| ==> CodeLen(d, r) > 0
    decreases |d| - i
  {
    if i == |d| || CodeLen(d, i) > 0 then i else NextCode(d, i + 1)
  }

  lemma {:induction false} NoCodeBeforeNext(d: bytes, i: nat, j: nat)
    requires i <= |d| && i <= j < NextCode(d, i)
    ensures CodeLen(d, j) == 0
    decreases |d| - i
  {
    if i < j {
      NoCodeBeforeNext(d, i + 1, j);
    }
  }

  lemma {:induction false} NextCodeIs(d: bytes, i: nat, c: nat)
    requires i <= c <= |d|
    requires forall j :: i <= j < c ==> CodeLen(d, j) == 0
    requires c < |d| ==> CodeLen(d, c) > 0
    ensures NextCode(d, i) == c
    decreases c - i
  {
    if i < c {
      NextCodeIs(d, i + 1, c);
    }
  }

  function Piece(d: bytes, start: Option<nat>, end: nat): seq<bytes>
    requires end <= |d|
  {
    if start.Some? && start.value < end then [d[start.value..end]] else []
  }

  /** The non-empty NAL units from `i` on, when the one in progress began at `start`. */
  function NalsFrom(d: bytes, start: Option<nat>, i: nat): (r: seq<bytes>)
    requires i <= |d|
    decreases |d| - i
  {
    var c := NextCode(d, i);
    Piece(d, start, c)
    + if c == |d| then [] else NalsFrom(d, Some(c + CodeLen(d, c)), c + CodeLen(d, c))
  }

  function Nals(d: bytes): seq<bytes> {
    NalsFrom(d, None, 0)
  }

  function NonEmpty(ns: seq<bytes>): seq<bytes> {
    if ns == [] then [] else (if ns[0] == [] then [] else [ns[0]]) + NonEmpty(ns[1..])
  }

  lemma {:induction false} NonEmptyAppend(a: seq<bytes>, b: seq<bytes>)
    ensures NonEmpty(a + b) == NonEmpty(a) + NonEmpty(b)
  {
    if a == [] {
      assert a + b == b;
    } else {
      assert (a + b)[1..] == a[1..] + b;
      NonEmptyAppend(a[1..], b);
    }
  }

  lemma {:induction false} NonEmptyBasics(n: bytes)
    ensures NonEmpty([]) == []
    ensures NonEmpty([n]) == if n == [] then [] else [n]
  {
    assert [n][1..] == [];
  }

  // ---- the scanners ----

  /** A start code at `marker` whose unit begins at `payload`; or the bounds of a unit. */
  datatype Span = Span(from: nat, to: nat)

  /** Two-pass scanners: (marker, payload) offsets of every start code from `i` on. */
  function Starts(d: bytes, i: nat): (r: seq<Span>)
    requires i <= |d|
    decreases |d| - i
  {
    var c := NextCode(d, i);
    if c == |d| then [] else [Span(c, c + CodeLen(d, c))] + Starts(d, c + CodeLen(d, c))
  }

  lemma {:induction false} StartsInside(d: bytes, i: nat)
    requires i <= |d|
    ensures Ordered(d, Starts(d, i))
    decreases |d| - i
  {
    var c := NextCode(d, i);
    if c < |d| {
      StartsInside(d, c + CodeLen(d, c));
    }
  }

  predicate Ordered(d: bytes, starts: seq<Span>) {
    forall s :: s in starts ==> s.from < s.to <= |d|
  }

  /** One step of a scanner: no start code at `i`. */
  lemma {:induction false} ScanSkip(d: bytes, start: Option<nat>, i: nat)
    requires i < |d| && CodeLen(d, i) == 0
    ensures Starts(d, i) == Starts(d, i + 1)
    ensures NalsFrom(d, start, i) == NalsFrom(d, start, i + 1)
  {
    hide CodeLen, NalsFrom;
    NalsFromIs(d, start, i);
    NalsFromIs(d, start, i + 1);
  }

  /** One step of a scanner: a start code at `i`. */
  lemma {:induction false} ScanTake(d: bytes, start: Option<nat>, i: nat)
    requires i < |d| && CodeLen(d, i) > 0
    ensures Starts(d, i) == [Span(i, i + CodeLen(d, i))] + Starts(d, i + CodeLen(d, i))
    ensures NalsFrom(d, start, i) == Piece(d, start, i) + NalsFrom(d, Some(i + CodeLen(d, i)), i + CodeLen(d, i))
  {
    hide CodeLen, NalsFrom;
    NalsFromIs(d, start, i);
  }

  /** A scanner at the end of the data: no start code fits. */
  lemma {:induction false} ScanEnd(d: bytes, start: Option<nat>, i: nat)
    requires i <= |d| < i + 3
    ensures Starts(d, i) == []
    ensures NalsFrom(d, start, i) == Piece(d, start, |d|)
  {
    hide NalsFrom;
    NextCodeIs(d, i, |d|);
    NalsFromIs(d, start, i);
  }

  function EndAfter(starts: seq<Span>, k: nat, n: nat): nat {
    if k + 1 < |starts| then starts[k + 1].from else n
  }

  /** Second pass from start code `k` on: the payload up to the next marker, when not empty. */
  function Ranges(starts: seq<Span>, k: nat, n: nat): seq<Span>
    decreases |starts| - k
  {
    if k >= |starts| then []
    else
      var end := EndAfter(starts, k, n);
      (if starts[k].to < end then [Span(starts[k].to, end)] else []) + Ranges(starts, k + 1, n)
  }

  predicate Inside(d: bytes, ranges: seq<Span>) {
    forall r :: r in ranges ==> r.from < r.to <= |d|
  }

  function Slices(d: bytes, ranges: seq<Span>): seq<bytes>
    requires Inside(d, ranges)
  {
    seq(|ranges|, k requires 0 <= k < |ranges| => d[ranges[k].from..ranges[k].to])
  }

  lemma {:induction false} RangesInside(d: bytes, starts: seq<Span>, k: nat)
    requires Ordered(d, starts)
    ensures Inside(d, Ranges(starts, k, |d|))
    decreases |starts| - k
  {
    if k < |starts| {
      RangesInside(d, starts, k + 1);
      assert k + 1 < |starts| ==> starts[k + 1] in starts;
    }
  }

  lemma {:induction false} RangesShift(s: Span, starts: seq<Span>, k: nat, n: nat)
    ensures Ranges([s] + starts, k + 1, n) == Ranges(starts, k, n)
    decreases |starts| - k
  {
    if k < |starts| {
      RangesShift(s, starts, k + 1, n);
    }
  }

  /** The two passes together cut the same units as the one-pass reference. */
  lemma {:induction false} RangesAreNals(d: bytes, i: nat)
    requires i <= |d|
    ensures Inside(d, Ranges(Starts(d, i), 0, |d|))
    ensures Slices(d, Ranges(Starts(d, i), 0, |d|)) == NalsFrom(d, None, i)
    decreases |d| - i
  {
    hide CodeLen, NextCode, NalsFrom, Starts, Ranges, Slices, Inside;
    StartsInside(d, i);
    RangesInside(d, Starts(d, i), 0);
    NalsFromStart(d, None, i);
    StartsAre(d, i);
    var c := NextCode(d, i);
    if c < |d| {
      var p := c + CodeLen(d, c);
      RangesAreNals(d, p);
      RangesOfStarts(d, c, p);
      NalsFromStart(d, Some(p), p);
      SlicesPrepend(d, p, NextCode(d, p), Ranges(Starts(d, p), 0, |d|));
    } else {
      NoRanges(d);
    }
  }

  lemma {:induction false} StartsAre(d: bytes, i: nat)
    requires i <= |d|
    ensures var c := NextCode(d, i);
            Starts(d, i) == if c == |d| then [] else [Span(c, c + CodeLen(d, c))] + Starts(d, c + CodeLen(d, c))
  {
    hide NextCode, CodeLen;
  }

  lemma {:induction false} NoRanges(d: bytes)
    ensures Ranges([], 0, |d|) == [] && Inside(d, []) && Slices(d, []) == []
  {
  }

  /** The first range ends where the next start code begins. */
  lemma {:induction false} RangesOfStarts(d: bytes, c: nat, p: nat)
    requires p <= |d|
    ensures Ranges([Span(c, p)] + Starts(d, p), 0, |d|)
            == (if p < NextCode(d, p) then [Span(p, NextCode(d, p))] else []) + Ranges(Starts(d, p), 0, |d|)
  {
    hide NextCode, CodeLen, Starts;
    var rest := Starts(d, p);
    StartsAre(d, p);
    RangesShift(Span(c, p), rest, 0, |d|);
    assert EndAfter([Span(c, p)] + rest, 0, |d|) == NextCode(d, p);
  }

  lemma {:induction false} SlicesPrepend(d: bytes, from: nat, to: nat, ranges: seq<Span>)
    requires from <= to <= |d| && Inside(d, ranges)
    ensures Inside(d, (if from < to then [Span(from, to)] else []) + ranges)
    ensures Slices(d, (if from < to then [Span(from, to)] else []) + ranges)
            == Piece(d, Some(from), to) + Slices(d, ranges)
  {
  }

  lemma {:induction false} NalsFromStart(d: bytes, start: Option<nat>, i: nat)
    requires i <= |d|
    ensures NalsFrom(d, start, i) == Piece(d, start, NextCode(d, i)) + NalsFrom(d, None, i)
    ensures NalsFrom(d, None, i) == var c := NextCode(d, i);
                                    if c == |d| then [] else NalsFrom(d, Some(c + CodeLen(d, c)), c + CodeLen(d, c))
  {
    hide CodeLen, NextCode, NalsFrom;
    NalsFromIs(d, start, i);
    NalsFromIs(d, None, i);
    var c := NextCode(d, i);
    var rest := if c == |d| then [] else NalsFrom(d, Some(c + CodeLen(d, c)), c + CodeLen(d, c));
    assert [] + rest == rest;
  }

  lemma {:induction false} NalsFromIs(d: bytes, start: Option<nat>, i: nat)
    requires i <= |d|
    ensures NalsFrom(d, start, i)
            == var c := NextCode(d, i);
               Piece(d, start, c)
               + if c == |d| then [] else NalsFrom(d, Some(c + CodeLen(d, c)), c + CodeLen(d, c))
  {
    hide CodeLen, NextCode;
  }

  /** First pass, shared by `annex_b_nalu_ranges` and `annex_b_nalus`. */
  method CodeStarts(d: bytes) returns (starts: seq<Span>)
    ensures starts == Starts(d, 0)
  {
    hide CodeLen, Starts;
    starts := [];
    var i := 0;
    while i + 3 <= |d|
      invariant i <= |d|
      invariant starts + Starts(d, i) == Starts(d, 0)
    {
      var startLen := CodeLen(d, i);
      if startLen == 0 {
        ScanSkip(d, None, i);
        i := i + 1;
        continue;
      }
      ScanTake(d, None, i);
      assert starts + ([Span(i, i + startLen)] + Starts(d, i + startLen))
             == (starts + [Span(i, i + startLen)]) + Starts(d, i + startLen);
      starts := starts + [Span(i, i + startLen)];
      i := i + startLen;
    }
    ScanEnd(d, None, i);
  }

  method AnnexBNaluRanges(d: bytes) returns (ranges: seq<Span>)
    ensures Inside(d, ranges)
    ensures Slices(d, ranges) == Nals(d)
  {
    hide CodeLen, NextCode, Starts, NalsFrom, Ranges, Slices, Inside, Ordered;
    var starts := CodeStarts(d);
    StartsInside(d, 0);
    ranges := [];
    var k := 0;
    while k < |starts|
      invariant k <= |starts|
      invariant ranges + Ranges(starts, k, |d|) == Ranges(starts, 0, |d|)
    {
      RangesNext(starts, k, |d|);
      var end := EndAfter(starts, k, |d|);
      if starts[k].to < end {
        ranges := ranges + [Span(starts[k].to, end)];
      }
      k := k + 1;
    }
    RangesEnd(starts, |d|);
    assert ranges + [] == ranges;
    RangesAreNals(d, 0);
  }

  lemma {:induction false} RangesNext(starts: seq<Span>, k: nat, n: nat)
    requires k < |starts|
    ensures var end := EndAfter(starts, k, n);
            Ranges(starts, k, n)
            == (if starts[k].to < end then [Span(starts[k].to, end)] else []) + Ranges(starts, k + 1, n)
  {
    hide EndAfter;
  }

  lemma {:induction false} RangesEnd(starts: seq<Span>, n: nat)
    ensures Ranges(starts, |starts|, n) == []
  {
  }

  /** The units cut from start code `k` on. */
  function Units(d: bytes, starts: seq<Span>, k: nat): seq<bytes>
    requires Ordered(d, starts)
  {
    RangesInside(d, starts, k);
    Slices(d, Ranges(starts, k, |d|))
  }

  lemma {:induction false} UnitsEnds(d: bytes)
    ensures Ordered(d, Starts(d, 0))
    ensures Units(d, Starts(d, 0), 0) == Nals(d)
    ensures Units(d, Starts(d, 0), |Starts(d, 0)|) == []
  {
    StartsInside(d, 0);
    RangesAreNals(d, 0);
  }

  lemma {:induction false} UnitsStep(d: bytes, starts: seq<Span>, k: nat)
    requires Ordered(d, starts) && k < |starts|
    ensures EndAfter(starts, k, |d|) <= |d|
    ensures var end := EndAfter(starts, k, |d|);
            Units(d, starts, k)
            == (if starts[k].to < end then [d[starts[k].to..end]] else []) + Units(d, starts, k + 1)
  {
    RangesInside(d, starts, k + 1);
    assert k + 1 < |starts| ==> starts[k + 1] in starts;
    var end := EndAfter(starts, k, |d|);
    if starts[k].to < end {
      SlicesPrepend(d, starts[k].to, end, Ranges(starts, k + 1, |d|));
    } else {
      assert [] + Ranges(starts, k + 1, |d|) == Ranges(starts, k + 1, |d|);
    }
  }

  method AnnexBNalus(d: bytes) returns (nalus: seq<bytes>)
    ensures nalus == Nals(d)
  {
    var starts := CodeStarts(d);
    UnitsEnds(d);
    hide Units, Starts, Nals, EndAfter;
    nalus := [];
    var k := 0;
    while k < |starts|
      invariant k <= |starts|
      invariant nalus + Units(d, starts, k) == Units(d, starts, 0)
    {
      UnitsStep(d, starts, k);
      var end := EndAfter(starts, k, |d|);
      if starts[k].to < end {
        nalus := nalus + [d[starts[k].to..end]];
      }
      k := k + 1;
    }
  }

  /** `H264Parser::parse_annexb`: tests for the three-byte code first and keeps empty units between codes. */
  method ParseAnnexB264(d: bytes) returns (nals: seq<bytes>)
    ensures NonEmpty(nals) == Nals(d)
  {
    hide NonEmpty, Push, NalsFrom, CodeLen;
    nals := [];
    NonEmptyBasics([]);
    var i := 0;
    var start: Option<nat> := None;
    while i < |d|
      invariant i <= |d|
      invariant start.Some? ==> start.value <= i
      invariant NonEmpty(nals) + NalsFrom(d, start, i) == Nals(d)
      decreases |d| - i
    {
      if Code3(d, i) {
        CodeLenIs(d, i);
        ScanTake(d, start, i);
        nals := Push(d, nals, start, i);
        start := Some(i + 3);
        i := i + 3;
      } else if Code4(d, i) {
        CodeLenIs(d, i);
        ScanTake(d, start, i);
        nals := Push(d, nals, start, i);
        start := Some(i + 4);
        i := i + 4;
      } else {
        CodeLenIs(d, i);
        ScanSkip(d, start, i);
        i := i + 1;
      }
    }
    ScanEnd(d, start, i);
    if start.Some? && start.value < |d| {
      NonEmptyAppend(nals, [d[start.value..]]);
      NonEmptyBasics(d[start.value..]);
      assert d[start.value..] == d[start.value..|d|];
      nals := nals + [d[start.value..]];
    }
  }

  /** `H265Parser::parse_annexb`: tests for the four-byte code first. */
  method ParseAnnexB265(d: bytes) returns (nals: seq<bytes>)
    ensures NonEmpty(nals) == Nals(d)
  {
    hide NonEmpty, Push, NalsFrom, CodeLen;
    nals := [];
    NonEmptyBasics([]);
    var i := 0;
    var start: Option<nat> := None;
    while i < |d|
      invariant i <= |d|
      invariant start.Some? ==> start.value <= i
      invariant NonEmpty(nals) + NalsFrom(d, start, i) == Nals(d)
      decreases |d| - i
    {
      if Code4(d, i) {
        CodeLenIs(d, i);
        ScanTake(d, start, i);
        nals := Push(d, nals, start, i);
        start := Some(i + 4);
        i := i + 4;
      } else if Code3(d, i) {
        CodeLenIs(d, i);
        ScanTake(d, start, i);
        nals := Push(d, nals, start, i);
        start := Some(i + 3);
        i := i + 3;
      } else {
        CodeLenIs(d, i);
        ScanSkip(d, start, i);
        i := i + 1;
      }
    }
    ScanEnd(d, start, i);
    if start.Some? && start.value < |d| {
      NonEmptyAppend(nals, [d[start.value..]]);
      NonEmptyBasics(d[start.value..]);
      assert d[start.value..] == d[start.value..|d|];
      nals := nals + [d[start.value..]];
    }
  }

  /** The unit that ends at `end`, kept even when empty. */
  function Push(d: bytes, nals: seq<bytes>, start: Option<nat>, end: nat): (r: seq<bytes>)
    requires end <= |d|
    requires start.Some? ==> start.value <= end
    ensures NonEmpty(r) == NonEmpty(nals) + Piece(d, start, end)
  {
    if start.None? then nals
    else
      NonEmptyAppend(nals, [d[start.value..end]]);
      nals + [d[start.value..end]]
  }

  // ---- the two framings ----

  const CODE: bytes := [0, 0, 0, 1]

  /** Canonical Annex-B: every unit behind a four-byte start code. */
  function AnnexB4(ns: seq<bytes>): bytes {
    if ns == [] then [] else CODE + ns[0] + AnnexB4(ns[1..])
  }

  function LengthPrefixed(ns: seq<bytes>): bytes {
    if ns == [] then [] else BE32(|ns[0]|) + ns[0] + LengthPrefixed(ns[1..])
  }

  /** A unit no scanner would cut. */
  ghost predicate Clean(n: bytes) {
    n != [] && forall i: nat :: !Code3(n, i)
  }

  ghost predicate AllClean(ns: seq<bytes>) {
    forall n :: n in ns ==> Clean(n)
  }

  /** Whatever the scanners return is clean. */
  lemma {:induction false} NalsAreClean(d: bytes, start: Option<nat>, i: nat)
    requires i <= |d|
    requires start.Some? ==> start.value == i
    ensures AllClean(NalsFrom(d, start, i))
    decreases |d| - i
  {
    hide CodeLen, NextCode, NalsFrom, Clean;
    var c := NextCode(d, i);
    NalsFromIs(d, start, i);
    if start.Some? && start.value < c {
      GapIsClean(d, i);
    }
    if c < |d| {
      NalsAreClean(d, Some(c + CodeLen(d, c)), c + CodeLen(d, c));
    }
  }

  lemma {:induction false} GapIsClean(d: bytes, i: nat)
    requires i < |d| && i < NextCode(d, i)
    ensures Clean(d[i..NextCode(d, i)])
  {
    hide CodeLen, NextCode;
    var n := d[i..NextCode(d, i)];
    forall k: nat
      ensures !Code3(n, k)
    {
      if k < |n| {
        NoCodeBeforeNext(d, i, i + k);
        CodeLenIs(d, i + k);
      }
    }
  }

  lemma {:induction false} NalsAreBounded(d: bytes, start: Option<nat>, i: nat)
    requires i <= |d|
    ensures forall n :: n in NalsFrom(d, start, i) ==> 0 < |n| <= |d|
    decreases |d| - i
  {
    hide CodeLen, NextCode, NalsFrom;
    var c := NextCode(d, i);
    NalsFromStart(d, start, i);
    if c < |d| {
      NalsAreBounded(d, Some(c + CodeLen(d, c)), c + CodeLen(d, c));
    }
  }

  /** A clean unit ends exactly where the next canonical start code begins. */
  lemma {:induction false} NextCodeAfterClean(d: bytes, i: nat, n: bytes, rest: seq<bytes>)
    requires Clean(n) && At(d, i, n + AnnexB4(rest)) && i + |n| + |AnnexB4(rest)| == |d|
    ensures NextCode(d, i) == i + |n|
  {
    hide *;
    var c := i + |n|;
    AtSplit(d, i, n, AnnexB4(rest));
    AnnexB4Split(rest);
    if rest != [] {
      AtSplit(d, c, CODE, rest[0] + AnnexB4(rest[1..]));
      CodeAt(d, c);
    }
    forall j: nat | i <= j < c
      ensures CodeLen(d, j) == 0
    {
      NoCodeInClean(d, i, n, j);
    }
    NextCodeIs(d, i, c);
  }

  lemma {:induction false} NoCodeInClean(d: bytes, i: nat, n: bytes, j: nat)
    requires Clean(n) && At(d, i, n) && (i + |n| == |d| || At(d, i + |n|, CODE)) && i <= j < i + |n|
    ensures CodeLen(d, j) == 0
  {
    var c := i + |n|;
    assert forall k: nat :: i <= k < c ==> d[k] == n[k - i];
    assert !Code3(n, j - i) && !Code3(n, j + 1 - i);
    if c < |d| {
      var t := d[c..c + 4];
      assert d[c] == t[0] && d[c + 1] == t[1] && d[c + 2] == t[2];
    }
  }

  lemma {:induction false} LastUnit(d: bytes, i: nat, n: bytes)
    requires Clean(n) && At(d, i, n + AnnexB4([])) && i + |n| == |d|
    ensures NalsFrom(d, Some(i), i) == [n]
  {
    hide At, AnnexB4, NalsFrom, NextCode, CodeLen, Code3, Code4, Clean, Piece;
    AnnexB4Split([]);
    NextCodeAfterClean(d, i, n, []);
    NalsFromStart(d, Some(i), i);
    assert n + [] == n;
    CleanPiece(d, i, n);
  }

  lemma {:induction false} NextUnit(d: bytes, i: nat, n: bytes, rest: seq<bytes>)
    requires Clean(n) && rest != []
    requires At(d, i, n + AnnexB4(rest)) && i + |n| + |AnnexB4(rest)| == |d|
    ensures var next := i + |n| + 4;
            && At(d, next, rest[0] + AnnexB4(rest[1..])) && next + |rest[0]| + |AnnexB4(rest[1..])| == |d|
            && NalsFrom(d, Some(i), i) == [n] + NalsFrom(d, Some(next), next)
  {
    hide At, AnnexB4, NalsFrom, NextCode, CodeLen, Code3, Code4, Clean, Piece;
    var c := i + |n|;
    NextCodeAfterClean(d, i, n, rest);
    NalsFromStart(d, Some(i), i);
    AtSplit(d, i, n, AnnexB4(rest));
    CleanPiece(d, i, n);
    AnnexB4Split(rest);
    AtSplit(d, c, CODE, rest[0] + AnnexB4(rest[1..]));
    CodeAt(d, c);
  }

  lemma {:induction false} NalsOfAnnexB4From(d: bytes, i: nat, n: bytes, rest: seq<bytes>)
    requires Clean(n) && AllClean(rest)
    requires At(d, i, n + AnnexB4(rest)) && i + |n| + |AnnexB4(rest)| == |d|
    ensures NalsFrom(d, Some(i), i) == [n] + rest
    decreases |rest|
  {
    hide *;
    if rest == [] {
      AnnexB4Split(rest);
      LastUnit(d, i, n);
    } else {
      AllCleanStep(rest);
      NextUnit(d, i, n, rest);
      NalsOfAnnexB4From(d, i + |n| + 4, rest[0], rest[1..]);
      assert [rest[0]] + rest[1..] == rest;
    }
  }

  lemma {:induction false} CleanPiece(d: bytes, i: nat, n: bytes)
    requires Clean(n) && At(d, i, n)
    ensures i + |n| <= |d| && Piece(d, Some(i), i + |n|) == [n]
  {
  }

  lemma {:induction false} AllCleanStep(ns: seq<bytes>)
    requires ns != [] && AllClean(ns)
    ensures Clean(ns[0]) && AllClean(ns[1..])
  {
    hide Clean;
  }

  lemma {:induction false} AnnexB4Split(ns: seq<bytes>)
    ensures AnnexB4(ns) == if ns == [] then [] else CODE + (ns[0] + AnnexB4(ns[1..]))
  {
  }

  lemma {:induction false} CodeAt(d: bytes, i: nat)
    requires At(d, i, CODE)
    ensures i + 4 <= |d| && CodeLen(d, i) == 4
  {
    assert d[i..i + 4] == CODE;
    assert d[i] == 0 && d[i + 1] == 0 && d[i + 2] == 0 && d[i + 3] == 1;
  }

  /** Scanning canonical Annex-B returns the units it was written from. */
  lemma {:induction false} NalsOfAnnexB4(ns: seq<bytes>)
    requires AllClean(ns)
    ensures Nals(AnnexB4(ns)) == ns
  {
    hide AnnexB4, NalsFrom, CodeLen, Clean;
    var d := AnnexB4(ns);
    AnnexB4Split(ns);
    NalsFromStart(d, None, 0);
    if ns != [] {
      var more := ns[0] + AnnexB4(ns[1..]);
      assert At(d, 0, CODE) && At(d, 4, more);
      CodeAt(d, 0);
      NalsOfAnnexB4From(d, 4, ns[0], ns[1..]);
    }
  }
}
