/** Bytes, big-endian fields and the sequence facts shared by every container. */
module Bytes {

  datatype Option<+T> = None | Some(value: T)

  type byte = x: int | 0 <= x < 0x100

  type bytes = seq<byte>

  // ---- big-endian fields; the encoders truncate as Rust's `as u16` and `as u32` do ----

  function BE16(n: nat): (r: bytes)
    ensures |r| == 2
  {
    [n / 0x100 % 0x100, n % 0x100]
  }

  function BE24(n: nat): (r: bytes)
    ensures |r| == 3
  {
    [n / 0x1_0000 % 0x100, n / 0x100 % 0x100, n % 0x100]
  }

  function BE32(n: nat): (r: bytes)
    ensures |r| == 4
  {
    [n / 0x100_0000 % 0x100, n / 0x1_0000 % 0x100, n / 0x100 % 0x100, n % 0x100]
  }

  function BE64(n: nat): (r: bytes)
    ensures |r| == 8
  {
    BE32(n / 0x1_0000_0000) + BE32(n % 0x1_0000_0000)
  }

  function U16(b: bytes, i: nat): (n: nat)
    requires i + 2 <= |b|
    ensures n < 0x1_0000
  {
    0x100 * b[i] as int + b[i + 1]
  }

  function U24(b: bytes, i: nat): (n: nat)
    requires i + 3 <= |b|
    ensures n < 0x100_0000
  {
    0x1_0000 * b[i] as int + 0x100 * b[i + 1] as int + b[i + 2]
  }

  function U32(b: bytes, i: nat): (n: nat)
    requires i + 4 <= |b|
    ensures n < 0x1_0000_0000
  {
    0x100_0000 * b[i] as int + 0x1_0000 * b[i + 1] as int + 0x100 * b[i + 2] as int + b[i + 3]
  }

  function U64(b: bytes, i: nat): (n: nat)
    requires i + 8 <= |b|
    ensures n < 0x1_0000_0000_0000_0000
  {
    0x1_0000_0000 * U32(b, i) + U32(b, i + 4)
  }

  // ---- bounded arithmetic ----

  const U64_MAX: nat := 0xffff_ffff_ffff_ffff

  function Min(a: nat, b: nat): nat {
    if a < b then a else b
  }

  function SatSub(a: nat, b: nat): nat {
    if b <= a then a - b else 0
  }

  /** What a saturating 64-bit operation makes of `n`. */
  function Clamp(n: nat): (r: nat)
    ensures r <= U64_MAX
  {
    if n <= U64_MAX then n else U64_MAX
  }

  /** A 64-bit value read as a signed one. */
  function Signed64(n: nat): int {
    if n < 0x8000_0000_0000_0000 then n else n - 0x1_0000_0000_0000_0000
  }

  // ---- a byte string laid out inside a larger one ----

  /** `part` occupies `data` from offset `off` on. */
  predicate At(data: bytes, off: nat, part: bytes) {
    off + |part| <= |data| && data[off..off + |part|] == part
  }

  lemma {:induction false} AtSplit(data: bytes, off: nat, x: bytes, y: bytes)
    requires At(data, off, x + y)
    ensures At(data, off, x)
    ensures At(data, off + |x|, y)
  {
    assert (x + y)[..|x|] == x && (x + y)[|x|..] == y;
  }

  lemma {:induction false} AtSelf(data: bytes)
    ensures At(data, 0, data)
  {
  }

  lemma {:induction false} AtIs(data: bytes, off: nat, part: bytes)
    requires At(data, off, part)
    ensures off + |part| <= |data|
    ensures data[off..off + |part|] == part
  {
  }

  lemma {:induction false} U16At(data: bytes, off: nat, n: nat)
    requires n < 0x1_0000
    requires At(data, off, BE16(n))
    ensures U16(data, off) == n
  {
    var s := data[off..off + 2];
    assert s[0] == data[off] && s[1] == data[off + 1];
  }

  lemma {:induction false} U24At(data: bytes, off: nat, n: nat)
    requires n < 0x100_0000
    requires At(data, off, BE24(n))
    ensures U24(data, off) == n
  {
    var s := data[off..off + 3];
    assert s[0] == data[off] && s[1] == data[off + 1] && s[2] == data[off + 2];
  }

  lemma {:induction false} U32At(data: bytes, off: nat, n: nat)
    requires n < 0x1_0000_0000
    requires At(data, off, BE32(n))
    ensures U32(data, off) == n
  {
    U32Bytes(data, off, BE32(n));
    BE32Digits(n);
  }

  lemma {:induction false} U32Bytes(data: bytes, off: nat, s: bytes)
    requires |s| == 4 && At(data, off, s)
    ensures U32(data, off) == 0x100_0000 * s[0] as int + 0x1_0000 * s[1] as int + 0x100 * s[2] as int + s[3]
  {
    var t := data[off..off + 4];
    assert t[0] == data[off] && t[1] == data[off + 1] && t[2] == data[off + 2] && t[3] == data[off + 3];
  }

  lemma {:induction false} BE32Digits(n: nat)
    requires n < 0x1_0000_0000
    ensures var s := BE32(n);
            0x100_0000 * s[0] as int + 0x1_0000 * s[1] as int + 0x100 * s[2] as int + s[3] == n
  {
    LowDigit(n);
    LowDigit(n / 0x100);
    LowDigit(n / 0x1_0000);
    NextDigits(n);
  }

  lemma {:induction false} LowDigit(q: nat)
    ensures q == 0x100 * (q / 0x100) + q % 0x100
  {
  }

  lemma {:induction false} NextDigits(n: nat)
    ensures n / 0x100 / 0x100 == n / 0x1_0000 && n / 0x1_0000 / 0x100 == n / 0x100_0000
    ensures n < 0x1_0000_0000 ==> n / 0x100_0000 % 0x100 == n / 0x100_0000
  {
  }

  lemma {:induction false} U64At(data: bytes, off: nat, n: nat)
    requires n < 0x1_0000_0000_0000_0000
    requires At(data, off, BE64(n))
    ensures U64(data, off) == n
  {
    AtSplit(data, off, BE32(n / 0x1_0000_0000), BE32(n % 0x1_0000_0000));
    U32At(data, off, n / 0x1_0000_0000);
    U32At(data, off + 4, n % 0x1_0000_0000);
  }

  // ---- concatenation and cutting ----

  lemma {:induction false} Snoc<T>(a: seq<T>, x: T, b: seq<T>)
    ensures a + ([x] + b) == (a + [x]) + b
    ensures b == [] ==> a + b == a
  {
  }

  lemma {:induction false} SliceOfDrop<T>(s: seq<T>, k: nat, a: nat, z: nat)
    requires a <= z && k + z <= |s|
    ensures s[k..][a..z] == s[k + a..k + z]
  {
  }

  lemma {:induction false} Assoc<T>(a: seq<T>, b: seq<T>, c: seq<T>)
    ensures a + b + c == a + (b + c)
  {
  }

  function Concat(parts: seq<bytes>): (r: bytes) {
    if parts == [] then [] else parts[0] + Concat(parts[1..])
  }

  lemma {:induction false} ConcatAppend(a: seq<bytes>, b: seq<bytes>)
    ensures Concat(a + b) == Concat(a) + Concat(b)
  {
    if a == [] {
      assert a + b == b;
    } else {
      assert (a + b)[1..] == a[1..] + b;
      ConcatAppend(a[1..], b);
    }
  }

  /** Rust's `slice::chunks`: pieces of exactly `n` bytes, the last one possibly shorter. */
  function Chunks(s: bytes, n: nat): (r: seq<bytes>)
    requires 0 < n
  {
    if s == [] then [] else if |s| <= n then [s] else [s[..n]] + Chunks(s[n..], n)
  }

  lemma {:induction false} ChunksConcat(s: bytes, n: nat)
    requires 0 < n
    ensures Concat(Chunks(s, n)) == s
    ensures forall c :: c in Chunks(s, n) ==> 0 < |c| <= n
    decreases |s|
  {
    if |s| > n {
      ChunksConcat(s[n..], n);
    }
  }

  /** `BytesMut::advance`. */
  function Drop(b: bytes, n: nat): (r: bytes) {
    if n <= |b| then b[n..] else []
  }

  predicate IsSuffix(a: bytes, b: bytes) {
    |a| <= |b| && a == b[|b| - |a|..]
  }

  lemma {:induction false} IsSuffixTransitive(a: bytes, b: bytes, c: bytes)
    requires IsSuffix(a, b) && IsSuffix(b, c)
    ensures IsSuffix(a, c)
  {
    assert a == c[|c| - |b|..][|b| - |a|..];
  }

  /** `p` is a contiguous slice of `b`. */
  ghost predicate IsSlice(p: bytes, b: bytes) {
    exists i: nat :: At(b, i, p)
  }

  lemma {:induction false} IsSliceOfSuffix(p: bytes, a: bytes, b: bytes)
    requires IsSlice(p, a) && IsSuffix(a, b)
    ensures IsSlice(p, b)
  {
    var i: nat :| At(a, i, p);
    assert At(b, |b| - |a| + i, p);
  }

  // ---- multiplication and division by a variable ----

  lemma {:induction false} MulMonotone(a: nat, b: nat, q: nat)
    requires a <= b
    ensures a * q <= b * q
  {
    assert (b - a) * q >= 0;
    assert b * q == a * q + (b - a) * q;
  }

  lemma {:induction false} DivMonotone(a: nat, b: nat, d: nat)
    requires a <= b && 0 < d
    ensures 0 <= a / d <= b / d
  {
    var p, q := a / d, b / d;
    if q < p {
      MulMonotone(q + 1, p, d);
      assert false;
    }
  }

  /** Quotient and remainder are read off a number written with them. */
  lemma {:induction false} DivMod(m: nat, q: nat, r: nat)
    requires r < m
    ensures (m * q + r) / m == q && (m * q + r) % m == r
  {
    var n := m * q + r;
    var p := n / m;
    if p < q {
      MulMonotone(p + 1, q, m);
      assert false;
    }
    if q < p {
      MulMonotone(q + 1, p, m);
      assert false;
    }
  }

  lemma {:induction false} DivBelow(n: nat, d: nat)
    requires 0 < d
    ensures n / d <= n
  {
    DivMonotone(0, n, d);
    MulMonotone(1, d, n / d);
  }

  /** The two low bytes of a number. */
  lemma {:induction false} LowWord(n: nat)
    ensures 0x100 * (n / 0x100 % 0x100) + n % 0x100 == n % 0x1_0000
  {
    var h := n / 0x100;
    DivMod(0x1_0000, h / 0x100, 0x100 * (h % 0x100) + n % 0x100);
  }
}
