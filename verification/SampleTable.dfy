/** The sample tables of a classic MP4 track (crates/mp4/src/demuxer.rs; sections 8.6.1.2 and 8.7.3 to 8.7.5 of
  * ISO/IEC 14496-12). */
module SampleTable {
  import opened Bytes
  import opened Frames

  // ---- the tables as bytes ----

  function Words(d: bytes, pos: nat, n: nat): (r: seq<nat>)
    requires pos + 4 * n <= |d|
    ensures |r| == n && forall i :: 0 <= i < n ==> r[i] == U32(d, pos + 4 * i)
  {
    seq(n, i requires 0 <= i < n => U32(d, pos + 4 * i))
  }

  function Longs(d: bytes, pos: nat, n: nat): (r: seq<nat>)
    requires pos + 8 * n <= |d|
    ensures |r| == n && forall i :: 0 <= i < n ==> r[i] == U64(d, pos + 8 * i)
  {
    seq(n, i requires 0 <= i < n => U64(d, pos + 8 * i))
  }

  /** `count` samples of `delta` ticks each. */
  datatype Run = Run(count: nat, delta: nat)

  function RunsOf(d: bytes, pos: nat, n: nat): (r: seq<Run>)
    requires pos + 8 * n <= |d|
    ensures |r| == n
  {
    seq(n, i requires 0 <= i < n => Run(U32(d, pos + 8 * i), U32(d, pos + 8 * i + 4)))
  }

  /** Chunks from number `first` on hold `samples` samples each. */
  datatype Entry = Entry(first: nat, samples: nat, description: nat)

  function EntriesOf(d: bytes, pos: nat, n: nat): (r: seq<Entry>)
    requires pos + 12 * n <= |d|
    ensures |r| == n
  {
    seq(n, i requires 0 <= i < n => Entry(U32(d, pos + 12 * i), U32(d, pos + 12 * i + 4), U32(d, pos + 12 * i + 8)))
  }

  /** `ensure_table_entries` behind the entry count at offset `at`. */
  predicate TableFits(d: bytes, at: nat, size: nat) {
    at + 4 <= |d| && at + 4 + size * U32(d, at) <= |d|
  }

  /** `stco` and `stss` share this layout. */
  method ParseWords(d: bytes) returns (r: Result<seq<nat>>)
    ensures r.Ok? <==> TableFits(d, 4, 4)
    ensures r.Ok? ==> r.value == Words(d, 8, U32(d, 4))
  {
    if |d| < 8 {
      return Err(Codec);
    }
    var count := U32(d, 4);
    if 8 + 4 * count > |d| {
      return Err(Codec);
    }
    var out: seq<nat> := [];
    var pos, k := 8, 0;
    while k < count
      invariant k <= count && pos == 8 + 4 * k && |out| == k
      invariant forall i :: 0 <= i < k ==> out[i] == U32(d, 8 + 4 * i)
    {
      out := out + [U32(d, pos)];
      pos, k := pos + 4, k + 1;
    }
    return Ok(out);
  }

  method ParseCo64(d: bytes) returns (r: Result<seq<nat>>)
    ensures r.Ok? <==> TableFits(d, 4, 8)
    ensures r.Ok? ==> r.value == Longs(d, 8, U32(d, 4))
  {
    hide U64;
    if |d| < 8 {
      return Err(Codec);
    }
    var count := U32(d, 4);
    if 8 + 8 * count > |d| {
      return Err(Codec);
    }
    var out: seq<nat> := [];
    var pos, k := 8, 0;
    while k < count
      invariant k <= count && pos == 8 + 8 * k && |out| == k
      invariant forall i :: 0 <= i < k ==> out[i] == U64(d, 8 + 8 * i)
    {
      out := out + [U64(d, pos)];
      pos, k := pos + 8, k + 1;
    }
    return Ok(out);
  }

  method ParseStsc(d: bytes) returns (r: Result<seq<Entry>>)
    ensures r.Ok? <==> TableFits(d, 4, 12)
    ensures r.Ok? ==> r.value == EntriesOf(d, 8, U32(d, 4))
  {
    hide U32;
    if |d| < 8 {
      return Err(Codec);
    }
    var count := U32(d, 4);
    if 8 + 12 * count > |d| {
      return Err(Codec);
    }
    var out: seq<Entry> := [];
    var pos, k := 8, 0;
    while k < count
      invariant k <= count && pos == 8 + 12 * k && |out| == k
      invariant forall i :: 0 <= i < k ==>
          out[i] == Entry(U32(d, 8 + 12 * i), U32(d, 8 + 12 * i + 4), U32(d, 8 + 12 * i + 8))
    {
      out := out + [Entry(U32(d, pos), U32(d, pos + 4), U32(d, pos + 8))];
      pos, k := pos + 12, k + 1;
    }
    return Ok(out);
  }

  function Repeat(n: nat, x: nat): (r: seq<nat>)
    ensures |r| == n && forall i :: 0 <= i < n ==> r[i] == x
  {
    seq(n, i requires 0 <= i < n => x)
  }

  method ParseStsz(d: bytes, fileLen: nat) returns (r: Result<seq<nat>>)
    ensures r.Ok? <==> && 12 <= |d|
                       && (if U32(d, 4) != 0 then U32(d, 8) <= fileLen / U32(d, 4) else TableFits(d, 8, 4))
    ensures r.Ok? ==> r.value == if U32(d, 4) != 0 then Repeat(U32(d, 8), U32(d, 4)) else Words(d, 12, U32(d, 8))
  {
    hide U32;
    if |d| < 12 {
      return Err(Codec);
    }
    var size, count := U32(d, 4), U32(d, 8);
    if size != 0 {
      if count > fileLen / size {
        return Err(Codec);
      }
      return Ok(Repeat(count, size));
    }
    if 12 + 4 * count > |d| {
      return Err(Codec);
    }
    var out: seq<nat> := [];
    var pos, k := 12, 0;
    while k < count
      invariant k <= count && pos == 12 + 4 * k && |out| == k
      invariant forall i :: 0 <= i < k ==> out[i] == U32(d, 12 + 4 * i)
    {
      out := out + [U32(d, pos)];
      pos, k := pos + 4, k + 1;
    }
    return Ok(out);
  }

  // ---- durations ----

  function Expand(runs: seq<Run>): seq<nat> {
    if runs == [] then [] else Expand(runs[..|runs| - 1]) + Repeat(runs[|runs| - 1].count, runs[|runs| - 1].delta)
  }

  lemma {:induction false} ExpandNext(runs: seq<Run>, k: nat)
    requires k < |runs|
    ensures Expand(runs[..k + 1]) == Expand(runs[..k]) + Repeat(runs[k].count, runs[k].delta)
  {
    assert runs[..k + 1][..k] == runs[..k];
  }

  lemma {:induction false} ExpandGrows(runs: seq<Run>, k: nat)
    requires k <= |runs|
    ensures |Expand(runs[..k])| <= |Expand(runs)|
    decreases |runs| - k
  {
    if k < |runs| {
      ExpandNext(runs, k);
      ExpandGrows(runs, k + 1);
    } else {
      assert runs[..k] == runs;
    }
  }

  /** The table is accepted exactly if its run lengths add up to the number of samples. */
  method ParseStts(d: bytes, expected: nat) returns (r: Result<seq<nat>>)
    ensures r.Ok? <==> TableFits(d, 4, 8) && |Expand(RunsOf(d, 8, U32(d, 4)))| == expected
    ensures r.Ok? ==> r.value == Expand(RunsOf(d, 8, U32(d, 4)))
  {
    hide U32, Expand;
    if |d| < 8 {
      return Err(Codec);
    }
    var count := U32(d, 4);
    if 8 + 8 * count > |d| {
      return Err(Codec);
    }
    ghost var runs := RunsOf(d, 8, count);
    var out: seq<nat> := [];
    ExpandNothing(runs);
    var pos, k := 8, 0;
    while k < count
      invariant k <= count && pos == 8 + 8 * k && out == Expand(runs[..k]) && |out| <= expected
    {
      var n, delta := U32(d, pos), U32(d, pos + 4);
      ExpandNext(runs, k);
      ExpandGrows(runs, k + 1);
      if |out| + n > expected {
        return Err(Codec);
      }
      out := out + Repeat(n, delta);
      pos, k := pos + 8, k + 1;
    }
    assert runs[..k] == runs;
    if |out| != expected {
      return Err(Codec);
    }
    return Ok(out);
  }

  lemma {:induction false} ExpandNothing(runs: seq<Run>)
    ensures Expand(runs[..0]) == []
  {
  }

  // ---- chunks ----

  /** `iter().rev().find(|e| e.first <= n)`. */
  function LastFor(entries: seq<Entry>, n: nat): (r: Option<Entry>) {
    if entries == [] then None
    else if entries[|entries| - 1].first <= n then Some(entries[|entries| - 1])
    else LastFor(entries[..|entries| - 1], n)
  }

  /** Entry numbers increase strictly and begin with the first chunk. */
  predicate WellFormed(entries: seq<Entry>) {
    && entries != [] && entries[0].first == 1
    && forall i, j :: 0 <= i < j < |entries| ==> entries[i].first < entries[j].first
  }

  /** Each chunk follows the one entry whose range of chunks contains it. */
  lemma {:induction false} EntryForChunk(entries: seq<Entry>, n: nat, k: nat)
    requires WellFormed(entries) && k < |entries|
    requires entries[k].first <= n && (k + 1 < |entries| ==> n < entries[k + 1].first)
    ensures LastFor(entries, n) == Some(entries[k])
    decreases |entries|
  {
    if k + 1 < |entries| {
      assert |entries| - 1 > k + 1 ==> entries[k + 1].first < entries[|entries| - 1].first;
      EntryForChunk(entries[..|entries| - 1], n, k);
    }
  }

  function SamplesIn(entries: seq<Entry>, n: nat): nat {
    var e := LastFor(entries, n);
    if e.None? then 0 else e.value.samples
  }

  /** Samples in the chunks before chunk index `c`; chunk numbers start at one. */
  function Before(entries: seq<Entry>, c: nat): nat {
    if c == 0 then 0 else Before(entries, c - 1) + SamplesIn(entries, c)
  }

  lemma {:induction false} BeforeGrows(entries: seq<Entry>, a: nat, b: nat)
    requires a <= b
    ensures Before(entries, a) <= Before(entries, b)
    decreases b - a
  {
    hide SamplesIn;
    if a < b {
      BeforeGrows(entries, a, b - 1);
    }
  }

  /** The chunk, of the first `c`, that holds sample `i`. */
  function ChunkOf(entries: seq<Entry>, i: nat, c: nat): (r: nat)
    requires i < Before(entries, c)
    ensures r < c && Before(entries, r) <= i < Before(entries, r + 1)
    decreases c
  {
    if Before(entries, c - 1) <= i then c - 1 else ChunkOf(entries, i, c - 1)
  }

  lemma {:induction false} ChunkIs(entries: seq<Entry>, i: nat, c: nat, k: nat)
    requires k < c && Before(entries, k) <= i < Before(entries, k + 1) && i < Before(entries, c)
    ensures ChunkOf(entries, i, c) == k
  {
    var r := ChunkOf(entries, i, c);
    if r < k {
      BeforeGrows(entries, r + 1, k);
    } else if k < r {
      BeforeGrows(entries, k + 1, r);
    }
  }

  function Sum(s: seq<nat>, i: nat): nat
    requires i <= |s|
  {
    if i == 0 then 0 else Sum(s, i - 1) + s[i - 1]
  }

  lemma {:induction false} SumGrows(s: seq<nat>, a: nat, b: nat)
    requires a <= b <= |s|
    ensures Sum(s, a) <= Sum(s, b)
    decreases b - a
  {
    if a < b {
      SumGrows(s, a, b - 1);
    }
  }

  // ---- the samples of a track ----

  datatype Tables = Tables(
    sizes: seq<nat>, durations: seq<nat>, entries: seq<Entry>, offsets: seq<nat>, sync: seq<nat>, timescale: u32,
    file: bytes)

  predicate Usable(t: Tables) {
    |t.durations| == |t.sizes| && 0 < t.timescale
  }

  datatype Out = Out(data: bytes, pts: u32, duration: u32, sync: bool)

  /** The halving search behind `binary_search(x).is_ok()`. */
  predicate Search(s: seq<nat>, x: nat, base: nat, size: nat)
    requires 0 < size && base + size <= |s|
    decreases size
  {
    if size == 1 then s[base] == x
    else
      var half := size / 2;
      Search(s, x, if s[base + half] > x then base else base + half, size - half)
  }

  predicate Found(s: seq<nat>, x: nat) {
    s != [] && Search(s, x, 0, |s|)
  }

  predicate Sorted(s: seq<nat>) {
    forall i, j :: 0 <= i < j < |s| ==> s[i] <= s[j]
  }

  predicate Within(s: seq<nat>, x: nat, base: nat, size: nat)
    requires base + size <= |s|
  {
    exists k :: base <= k < base + size && s[k] == x
  }

  function Half(s: seq<nat>, x: nat, base: nat, size: nat): nat
    requires 1 < size && base + size <= |s|
  {
    if s[base + size / 2] > x then base else base + size / 2
  }

  /** The half that is kept holds `x` if the whole does. */
  lemma {:induction false} HalfKeeps(s: seq<nat>, x: nat, base: nat, size: nat)
    requires 1 < size && base + size <= |s| && Sorted(s)
    ensures Within(s, x, base, size) ==> Within(s, x, Half(s, x, base, size), size - size / 2)
  {
    var half := size / 2;
    if Within(s, x, base, size) {
      var k :| base <= k < base + size && s[k] == x;
      if s[base + half] > x {
        assert k < base + half;
      } else if k < base + half {
        assert s[base + half] == x;
      }
    }
  }

  lemma {:induction false} SearchFinds(s: seq<nat>, x: nat, base: nat, size: nat)
    requires 0 < size && base + size <= |s| && Sorted(s)
    ensures Search(s, x, base, size) ==> x in s
    ensures Within(s, x, base, size) ==> Search(s, x, base, size)
    decreases size
  {
    hide Sorted;
    if size > 1 {
      HalfKeeps(s, x, base, size);
      hide Within;
      SearchFinds(s, x, Half(s, x, base, size), size - size / 2);
    }
  }

  /** In a sorted table the search decides membership. */
  lemma {:induction false} SyncIsMembership(s: seq<nat>, x: nat)
    requires Sorted(s)
    ensures Found(s, x) <==> x in s
  {
    if s != [] {
      SearchFinds(s, x, 0, |s|);
    }
  }

  /** Ticks to milliseconds in 64-bit arithmetic, truncated to 32 bits. */
  function Millis(ticks: nat, timescale: u32): u32
    requires 0 < timescale
  {
    ticks * 1000 % 0x1_0000_0000_0000_0000 / timescale % 0x1_0000_0000
  }

  /** Where sample `i` starts: its chunk's offset plus the sizes of the samples before it in that chunk. */
  function Location(t: Tables, i: nat): nat
    requires i < |t.sizes| && i < Before(t.entries, |t.offsets|)
    requires Before(t.entries, ChunkOf(t.entries, i, |t.offsets|)) <= |t.sizes|
  {
    var c := ChunkOf(t.entries, i, |t.offsets|);
    SumGrows(t.sizes, Before(t.entries, c), i);
    t.offsets[c] + (Sum(t.sizes, i) - Sum(t.sizes, Before(t.entries, c)))
  }

  function SampleAt(t: Tables, i: nat, offset: nat): Out
    requires Usable(t) && i < |t.sizes|
  {
    var end := offset + t.sizes[i];
    Out(if end <= |t.file| then t.file[offset..end] else [],
        Millis(Clamp(Sum(t.durations, i)), t.timescale), Millis(t.durations[i], t.timescale),
        t.sync == [] || Found(t.sync, (i + 1) % 0x1_0000_0000))
  }

  /** The first `n` samples are where the tables say, and none of them overflows the address space. */
  ghost predicate Resolved(t: Tables, out: seq<Out>, n: nat)
    requires Usable(t)
  {
    && |out| == n <= |t.sizes| && n <= Before(t.entries, |t.offsets|)
    && forall i: nat :: i < n ==> Placed(t, out, i)
  }

  ghost predicate Placed(t: Tables, out: seq<Out>, i: nat)
    requires Usable(t) && i < |out| <= |t.sizes| && |out| <= Before(t.entries, |t.offsets|)
  {
    && Before(t.entries, ChunkOf(t.entries, i, |t.offsets|)) <= |t.sizes|
    && Location(t, i) + t.sizes[i] <= U64_MAX && out[i] == SampleAt(t, i, Location(t, i))
  }

  /** Some sample the loop reaches ends beyond the address space. */
  ghost predicate Overflows(t: Tables) {
    exists i: nat :: OverflowsAt(t, i)
  }

  ghost predicate OverflowsAt(t: Tables, i: nat) {
    && i < |t.sizes| && i < Before(t.entries, |t.offsets|)
    && Before(t.entries, ChunkOf(t.entries, i, |t.offsets|)) <= |t.sizes|
    && Location(t, i) + t.sizes[i] > U64_MAX
  }

  lemma {:induction false} ExtendResolved(t: Tables, out: seq<Out>, c: nat, i: nat, running: nat)
    requires Usable(t) && Resolved(t, out, i) && c < |t.offsets| && i < |t.sizes|
    requires Before(t.entries, c) <= i < Before(t.entries, c + 1)
    requires running == Sum(t.sizes, i) - Sum(t.sizes, Before(t.entries, c))
    ensures t.offsets[c] + running + t.sizes[i] > U64_MAX ==> Overflows(t)
    ensures t.offsets[c] + running + t.sizes[i] <= U64_MAX ==>
              Resolved(t, out + [SampleAt(t, i, t.offsets[c] + running)], i + 1)
  {
    hide Before, ChunkOf, SampleAt, Sum;
    var n := |t.offsets|;
    BeforeGrows(t.entries, c + 1, n);
    ChunkIs(t.entries, i, n, c);
    assert Location(t, i) == t.offsets[c] + running;
    if t.offsets[c] + running + t.sizes[i] > U64_MAX {
      assert OverflowsAt(t, i);
    } else {
      var more := out + [SampleAt(t, i, t.offsets[c] + running)];
      forall k: nat | k < i + 1
        ensures Placed(t, more, k)
      {
        assert k < i ==> Placed(t, out, k);
      }
    }
  }

  lemma {:induction false} NoOverflow(t: Tables, out: seq<Out>)
    requires Usable(t) && Resolved(t, out, Min(|t.sizes|, Before(t.entries, |t.offsets|)))
    ensures !Overflows(t)
  {
    hide Before, ChunkOf, SampleAt, Sum;
    forall i: nat
      ensures !OverflowsAt(t, i)
    {
      if i < |t.sizes| && i < Before(t.entries, |t.offsets|) {
        assert Placed(t, out, i);
      }
    }
  }

  /** The chunk loop: every sample the chunks cover is found where the tables put it. */
  method Resolve(t: Tables) returns (r: Result<seq<Out>>)
    requires Usable(t)
    ensures r.Err? <==> Overflows(t)
    ensures r.Ok? ==> Resolved(t, r.value, Min(|t.sizes|, Before(t.entries, |t.offsets|)))
  {
    hide Resolved, Overflows, LastFor, Search, SampleAt;
    var count := |t.sizes|;
    var ticks := Ticks(t.durations);
    var out: seq<Out> := [];
    var sampleIdx, chunkIdx := 0, 0;
    NothingResolved(t);
    while chunkIdx < |t.offsets|
      invariant chunkIdx <= |t.offsets|
      invariant sampleIdx == Min(count, Before(t.entries, chunkIdx))
      invariant Resolved(t, out, sampleIdx)
    {
      var e := LastFor(t.entries, chunkIdx + 1);
      var samplesInChunk := if e.None? then 0 else e.value.samples;
      var offset0, running, k := t.offsets[chunkIdx], 0, 0;
      ghost var start := sampleIdx;
      while k < samplesInChunk && sampleIdx < count
        invariant k <= samplesInChunk && sampleIdx == start + k <= count
        invariant start < count || k == 0
        invariant start < count ==> start == Before(t.entries, chunkIdx)
        invariant start <= count && running == Sum(t.sizes, sampleIdx) - Sum(t.sizes, start)
        invariant Resolved(t, out, sampleIdx)
      {
        ExtendResolved(t, out, chunkIdx, sampleIdx, running);
        var size := t.sizes[sampleIdx];
        var offset := offset0 + running;
        var end := offset + size;
        if end > U64_MAX {
          return Err(Codec);
        }
        running := running + size;
        var sample := BuildSample(t, ticks, sampleIdx, offset);
        out := out + [sample];
        sampleIdx, k := sampleIdx + 1, k + 1;
      }
      chunkIdx := chunkIdx + 1;
    }
    NoOverflow(t, out);
    return Ok(out);
  }

  lemma {:induction false} NothingResolved(t: Tables)
    requires Usable(t)
    ensures Resolved(t, [], 0)
  {
  }

  /** The start of every sample in ticks. */
  method Ticks(durations: seq<nat>) returns (ticks: seq<nat>)
    ensures |ticks| == |durations| && forall i :: 0 <= i < |ticks| ==> ticks[i] == Clamp(Sum(durations, i))
  {
    ticks := [];
    var t, i := 0, 0;
    while i < |durations|
      invariant i <= |durations| && |ticks| == i && t == Clamp(Sum(durations, i))
      invariant forall k :: 0 <= k < i ==> ticks[k] == Clamp(Sum(durations, k))
    {
      ticks := ticks + [t];
      t := Clamp(t + durations[i]);
      i := i + 1;
    }
  }

  method BuildSample(t: Tables, ticks: seq<nat>, i: nat, offset: nat) returns (r: Out)
    requires Usable(t) && i < |t.sizes| && |ticks| == |t.sizes|
    requires forall k :: 0 <= k < |ticks| ==> ticks[k] == Clamp(Sum(t.durations, k))
    ensures r == SampleAt(t, i, offset)
  {
    hide Sum, Search, Clamp;
    var end := offset + t.sizes[i];
    var data := if end <= |t.file| then t.file[offset..end] else [];
    var pts := Millis(ticks[i], t.timescale);
    var duration := Millis(t.durations[i], t.timescale);
    var sync := true;
    if t.sync != [] {
      sync := Search(t.sync, (i + 1) % 0x1_0000_0000, 0, |t.sync|);
    }
    return Out(data, pts, duration, sync);
  }

  // ---- well-formed tables ----

  /** The number of samples in the first `c` chunks. */
  function StartOf(chunks: seq<seq<bytes>>, c: nat): nat
    requires c <= |chunks|
  {
    if c == 0 then 0 else StartOf(chunks, c - 1) + |chunks[c - 1]|
  }

  lemma {:induction false} StartGrows(chunks: seq<seq<bytes>>, a: nat, b: nat)
    requires a <= b <= |chunks|
    ensures StartOf(chunks, a) <= StartOf(chunks, b)
    decreases b - a
  {
    if a < b {
      StartGrows(chunks, a, b - 1);
    }
  }

  /** The tables describe these samples: how many lie in each chunk, and how long each one is. */
  ghost predicate Describes(t: Tables, chunks: seq<seq<bytes>>) {
    && |chunks| == |t.offsets| && |t.sizes| == StartOf(chunks, |chunks|)
    && (forall c :: 0 <= c < |chunks| ==> SamplesIn(t.entries, c + 1) == |chunks[c]|)
    && (forall c: nat, k: nat :: c < |chunks| && k < |chunks[c]| ==> SizeIs(t, chunks, c, k))
  }

  ghost predicate SizeIs(t: Tables, chunks: seq<seq<bytes>>, c: nat, k: nat)
    requires c < |chunks| && k < |chunks[c]|
  {
    StartOf(chunks, c) + k < |t.sizes| && t.sizes[StartOf(chunks, c) + k] == |chunks[c][k]|
  }

  /** Each chunk lies at its offset of the file, its samples side by side. */
  ghost predicate Stored(t: Tables, chunks: seq<seq<bytes>>) {
    |chunks| == |t.offsets| && forall c :: 0 <= c < |chunks| ==> At(t.file, t.offsets[c], Concat(chunks[c]))
  }

  lemma {:induction false} BeforeIsStart(t: Tables, chunks: seq<seq<bytes>>, c: nat)
    requires Describes(t, chunks) && c <= |chunks|
    ensures Before(t.entries, c) == StartOf(chunks, c)
  {
    hide SamplesIn, SizeIs;
    if c > 0 {
      BeforeIsStart(t, chunks, c - 1);
    }
  }

  lemma {:induction false} ConcatTake(ps: seq<bytes>, k: nat)
    requires k < |ps|
    ensures Concat(ps[..k + 1]) == Concat(ps[..k]) + ps[k]
    ensures Concat(ps) == Concat(ps[..k]) + ps[k] + Concat(ps[k + 1..])
  {
    hide Concat;
    ConcatAppend(ps[..k], [ps[k]]);
    ConcatSingle(ps[k]);
    assert ps[..k] + [ps[k]] == ps[..k + 1];
    ConcatAppend(ps[..k + 1], ps[k + 1..]);
    assert ps[..k + 1] + ps[k + 1..] == ps;
  }

  lemma {:induction false} ConcatSingle(p: bytes)
    ensures Concat([p]) == p && Concat([]) == []
  {
    assert [p][1..] == [];
  }

  lemma {:induction false} SumInChunk(t: Tables, chunks: seq<seq<bytes>>, c: nat, k: nat)
    requires Describes(t, chunks) && c < |chunks| && k <= |chunks[c]|
    ensures StartOf(chunks, c) + k <= |t.sizes|
    ensures Sum(t.sizes, StartOf(chunks, c) + k) == Sum(t.sizes, StartOf(chunks, c)) + |Concat(chunks[c][..k])|
    decreases k
  {
    hide SamplesIn, Concat;
    StartGrows(chunks, c + 1, |chunks|);
    if k == 0 {
      ConcatSingle([]);
      assert chunks[c][..0] == [];
    } else {
      SumInChunk(t, chunks, c, k - 1);
      ConcatTake(chunks[c], k - 1);
      assert SizeIs(t, chunks, c, k - 1);
    }
  }

  /** Sample `k` of chunk `c` is found behind the samples before it. */
  lemma {:induction false} LocationInChunk(t: Tables, chunks: seq<seq<bytes>>, c: nat, k: nat)
    requires Describes(t, chunks) && c < |chunks| && k < |chunks[c]|
    ensures var i := StartOf(chunks, c) + k;
            && i < |t.sizes| && i < Before(t.entries, |t.offsets|)
            && Before(t.entries, ChunkOf(t.entries, i, |t.offsets|)) <= |t.sizes|
            && Location(t, i) == t.offsets[c] + |Concat(chunks[c][..k])| && t.sizes[i] == |chunks[c][k]|
  {
    hide SamplesIn, Concat, Sum;
    var i, n := StartOf(chunks, c) + k, |chunks|;
    StartGrows(chunks, c + 1, n);
    BeforeIsStart(t, chunks, c);
    BeforeIsStart(t, chunks, c + 1);
    BeforeIsStart(t, chunks, n);
    ChunkIs(t.entries, i, n, c);
    SumInChunk(t, chunks, c, k);
    assert SizeIs(t, chunks, c, k);
  }

  lemma {:induction false} CutSample(file: bytes, offset: nat, ps: seq<bytes>, k: nat)
    requires At(file, offset, Concat(ps)) && k < |ps|
    ensures var from := offset + |Concat(ps[..k])|;
            from + |ps[k]| <= |file| && file[from..from + |ps[k]|] == ps[k]
  {
    hide Concat;
    ConcatTake(ps, k);
    AtSplit(file, offset, Concat(ps[..k]) + ps[k], Concat(ps[k + 1..]));
    AtSplit(file, offset, Concat(ps[..k]), ps[k]);
  }

  /** A file that holds its samples in chunks as its tables say is read back: one sample for each stored one, in order
    * and with its bytes, and never an error. */
  lemma {:induction false} ChunksAreRead(t: Tables, chunks: seq<seq<bytes>>, out: seq<Out>)
    requires Usable(t) && Describes(t, chunks) && Stored(t, chunks)
    requires Resolved(t, out, Min(|t.sizes|, Before(t.entries, |t.offsets|)))
    ensures |out| == |t.sizes|
    ensures forall c: nat, k: nat :: c < |chunks| && k < |chunks[c]| ==> SampleIs(chunks, out, c, k)
  {
    BeforeIsStart(t, chunks, |chunks|);
    forall c: nat, k: nat | c < |chunks| && k < |chunks[c]|
      ensures SampleIs(chunks, out, c, k)
    {
      SampleIsRead(t, chunks, out, c, k);
    }
  }

  ghost predicate SampleIs(chunks: seq<seq<bytes>>, out: seq<Out>, c: nat, k: nat)
    requires c < |chunks| && k < |chunks[c]|
  {
    StartOf(chunks, c) + k < |out| && out[StartOf(chunks, c) + k].data == chunks[c][k]
  }

  lemma {:induction false} SampleIsRead(t: Tables, chunks: seq<seq<bytes>>, out: seq<Out>, c: nat, k: nat)
    requires Usable(t) && Describes(t, chunks) && Stored(t, chunks) && c < |chunks| && k < |chunks[c]|
    requires Resolved(t, out, Min(|t.sizes|, Before(t.entries, |t.offsets|)))
    ensures SampleIs(chunks, out, c, k)
  {
    hide Concat, Sum, Before, ChunkOf, StartOf, SamplesIn, Location, Found, Millis, Describes;
    LocationInChunk(t, chunks, c, k);
    assert Placed(t, out, StartOf(chunks, c) + k);
    CutSample(t.file, t.offsets[c], chunks[c], k);
  }

  lemma {:induction false} StoredNeverOverflows(t: Tables, chunks: seq<seq<bytes>>)
    requires Usable(t) && Describes(t, chunks) && Stored(t, chunks) && |t.file| <= U64_MAX
    ensures !Overflows(t)
  {
    BeforeIsStart(t, chunks, |chunks|);
    forall i: nat
      ensures !OverflowsAt(t, i)
    {
      if i < |t.sizes| {
        var c, k := PlaceOf(chunks, i, |chunks|);
        LocationInChunk(t, chunks, c, k);
        CutSample(t.file, t.offsets[c], chunks[c], k);
      }
    }
  }

  lemma {:induction false} PlaceOf(chunks: seq<seq<bytes>>, i: nat, n: nat) returns (c: nat, k: nat)
    requires n <= |chunks| && i < StartOf(chunks, n)
    ensures c < n && k < |chunks[c]| && i == StartOf(chunks, c) + k
    decreases n
  {
    if StartOf(chunks, n - 1) <= i {
      c, k := n - 1, i - StartOf(chunks, n - 1);
    } else {
      c, k := PlaceOf(chunks, i, n - 1);
    }
  }

  // ---- a track from the bytes of its boxes ----

  /** The table boxes of a track, as far as they are present. */
  datatype TableBoxes = TableBoxes(
    stsz: Option<bytes>, stts: Option<bytes>, stsc: Option<bytes>, co64: Option<bytes>, stco: Option<bytes>,
    stss: Option<bytes>)

  function SizesOf(d: bytes, fileLen: nat): Result<seq<nat>> {
    if |d| < 12 then Err(Codec)
    else if U32(d, 4) != 0 then
      (if U32(d, 8) <= fileLen / U32(d, 4) then Ok(Repeat(U32(d, 8), U32(d, 4))) else Err(Codec))
    else if TableFits(d, 8, 4) then Ok(Words(d, 12, U32(d, 8))) else Err(Codec)
  }

  function OffsetsOf(b: TableBoxes): Result<seq<nat>> {
    if b.co64.Some? then
      (if TableFits(b.co64.value, 4, 8) then Ok(Longs(b.co64.value, 8, U32(b.co64.value, 4))) else Err(Codec))
    else if b.stco.Some? && TableFits(b.stco.value, 4, 4) then Ok(Words(b.stco.value, 8, U32(b.stco.value, 4)))
    else Err(Codec)
  }

  function DurationsOf(b: TableBoxes, expected: nat): Result<seq<nat>> {
    if b.stts.None? || !TableFits(b.stts.value, 4, 8) then Err(Codec)
    else
      var all := Expand(RunsOf(b.stts.value, 8, U32(b.stts.value, 4)));
      if |all| == expected then Ok(all) else Err(Codec)
  }

  /** The tables of a track; none if it has no samples. */
  function TablesOf(b: TableBoxes, timescale: u32, file: bytes): (r: Result<Option<Tables>>)
    requires 0 < timescale
    ensures r.Ok? && r.value.Some? ==> Usable(r.value.value) && r.value.value.file == file
  {
    if b.stsz.None? then Err(Codec)
    else
      var sizes :- SizesOf(b.stsz.value, |file|);
      if sizes == [] then Ok(None)
      else
        var durations :- DurationsOf(b, |sizes|);
        if b.stsc.None? || !TableFits(b.stsc.value, 4, 12) then Err(Codec)
        else
          var offsets :- OffsetsOf(b);
          if b.stss.Some? && !TableFits(b.stss.value, 4, 4) then Err(Codec)
          else
            var sync := if b.stss.Some? then Words(b.stss.value, 8, U32(b.stss.value, 4)) else [];
            Ok(Some(Tables(sizes, durations, EntriesOf(b.stsc.value, 8, U32(b.stsc.value, 4)), offsets, sync,
                           timescale, file)))
  }

  method ReadTables(b: TableBoxes, timescale: u32, file: bytes) returns (r: Result<Option<Tables>>)
    requires 0 < timescale
    ensures r.Ok? <==> TablesOf(b, timescale, file).Ok?
    ensures r.Ok? ==> r == TablesOf(b, timescale, file)
  {
    hide U32, Expand, Words, Longs, RunsOf, EntriesOf, Repeat;
    if b.stsz.None? {
      return Err(Codec);
    }
    var sizes :- ParseStsz(b.stsz.value, |file|);
    if sizes == [] {
      return Ok(None);
    }
    if b.stts.None? {
      return Err(Codec);
    }
    var durations :- ParseStts(b.stts.value, |sizes|);
    if b.stsc.None? {
      return Err(Codec);
    }
    var entries :- ParseStsc(b.stsc.value);
    var offsets: seq<nat>;
    if b.co64.Some? {
      offsets :- ParseCo64(b.co64.value);
    } else {
      if b.stco.None? {
        return Err(Codec);
      }
      offsets :- ParseWords(b.stco.value);
    }
    var sync: seq<nat> := [];
    if b.stss.Some? {
      sync :- ParseWords(b.stss.value);
    }
    return Ok(Some(Tables(sizes, durations, entries, offsets, sync, timescale, file)));
  }

  /** From the bytes of the boxes to the samples: whenever the tables can be read and describe chunks of samples that
    * the file holds, the track is exactly those samples, in order. */
  method ReadTrack(b: TableBoxes, timescale: u32, file: bytes) returns (r: Result<seq<Out>>)
    requires 0 < timescale
    ensures var t := TablesOf(b, timescale, file);
            r.Err? <==> t.Err? || (t.value.Some? && Overflows(t.value.value))
    ensures TablesOf(b, timescale, file).Ok? && TablesOf(b, timescale, file).value.Some? && |file| <= U64_MAX ==>
              var t := TablesOf(b, timescale, file).value.value;
              forall chunks :: Describes(t, chunks) && Stored(t, chunks) ==>
                r.Ok? && |r.value| == |t.sizes|
                && forall c: nat, k: nat :: c < |chunks| && k < |chunks[c]| ==> SampleIs(chunks, r.value, c, k)
  {
    hide TablesOf, Describes, Stored, SampleIs, Overflows, Resolved, Before;
    var tables :- ReadTables(b, timescale, file);
    if tables.None? {
      return Ok([]);
    }
    var t := tables.value;
    r := Resolve(t);
    forall chunks | |file| <= U64_MAX && Describes(t, chunks) && Stored(t, chunks)
      ensures r.Ok? && |r.value| == |t.sizes|
              && forall c: nat, k: nat :: c < |chunks| && k < |chunks[c]| ==> SampleIs(chunks, r.value, c, k)
    {
      StoredNeverOverflows(t, chunks);
      ChunksAreRead(t, chunks, r.value);
    }
  }

  /** Presentation times are exact and never go back while they fit. */
  lemma {:induction false} TimesAreExact(t: Tables, out: seq<Out>, i: nat)
    requires Usable(t) && Resolved(t, out, |out|) && i < |out|
    requires Sum(t.durations, i) * 1000 <= U64_MAX && Sum(t.durations, i) * 1000 / t.timescale < 0x1_0000_0000
    ensures out[i].pts == Sum(t.durations, i) * 1000 / t.timescale
    ensures 0 < i ==> out[i - 1].pts <= out[i].pts
  {
    hide Before, ChunkOf, Location, Found;
    assert Placed(t, out, i);
    MillisIsExact(Sum(t.durations, i), t.timescale);
    if 0 < i {
      assert Placed(t, out, i - 1);
      var a, b := Sum(t.durations, i - 1), Sum(t.durations, i);
      DivMonotone(a * 1000, b * 1000, t.timescale);
      MillisIsExact(a, t.timescale);
    }
  }

  lemma {:induction false} MillisIsExact(ticks: nat, timescale: u32)
    requires 0 < timescale && ticks * 1000 <= U64_MAX && ticks * 1000 / timescale < 0x1_0000_0000
    ensures Clamp(ticks) == ticks && Millis(ticks, timescale) == ticks * 1000 / timescale
  {
  }
}
