/** The MPEG-2 CRC-32 that closes a program stream map and the TS tables.
  *
  * The 32-bit register is modelled as its bits, most significant first.
  */
module Crc {
  import opened Bytes
  import opened Bits

  function Polynomial(): (r: bits)
    ensures |r| == 32
  {
    BitsOf(0x04c1_1db7, 32)
  }

  function Xor(a: bits, b: bits): (r: bits)
    requires |b| <= |a|
    ensures |r| == |a|
  {
    seq(|a|, i requires 0 <= i < |a| => if i < |b| then a[i] != b[i] else a[i])
  }

  function Shift(c: bits): (r: bits)
    requires |c| == 32
    ensures |r| == 32
  {
    if c[0] then Xor(c[1..] + [false], Polynomial()) else c[1..] + [false]
  }

  function Shifts(c: bits, n: nat): (r: bits)
    requires |c| == 32
    ensures |r| == 32
    decreases n
  {
    if n == 0 then c else Shifts(Shift(c), n - 1)
  }

  /** The register after feeding `d` into it: each byte is added to the top and shifted out. */
  function Feed(c: bits, d: bytes): (r: bits)
    requires |c| == 32
    ensures |r| == 32
    decreases |d|
  {
    if d == [] then c else Feed(Shifts(Xor(c, BitsOf(d[0], 8)), 8), d[1..])
  }

  function Ones(): (r: bits)
    ensures |r| == 32
  {
    seq(32, i => true)
  }

  /** `mpeg2_crc32(d).to_be_bytes()`. */
  function Crc32(d: bytes): (r: bytes)
    ensures |r| == 4
  {
    Pack(Feed(Ones(), d))
  }

  method Mpeg2Crc32(d: bytes) returns (crc: bits)
    ensures crc == Feed(Ones(), d)
  {
    hide BitsOf, Xor, Shift;
    crc := Ones();
    var i := 0;
    while i < |d|
      invariant i <= |d| && |crc| == 32
      invariant Feed(crc, d[i..]) == Feed(Ones(), d)
    {
      assert d[i..][0] == d[i] && d[i..][1..] == d[i + 1..];
      crc := Xor(crc, BitsOf(d[i], 8));
      var k := 8;
      while k > 0
        invariant 0 <= k && |crc| == 32
        invariant Feed(Shifts(crc, k), d[i + 1..]) == Feed(Ones(), d)
        decreases k
      {
        crc := Shift(crc);
        k := k - 1;
      }
      i := i + 1;
    }
  }

  lemma {:induction false} FeedAppend(c: bits, a: bytes, b: bytes)
    requires |c| == 32
    ensures Feed(c, a + b) == Feed(Feed(c, a), b)
    decreases |a|
  {
    hide BitsOf, Xor, Shifts;
    if a == [] {
      assert a + b == b;
    } else {
      assert (a + b)[1..] == a[1..] + b;
      FeedAppend(Shifts(Xor(c, BitsOf(a[0], 8)), 8), a[1..], b);
    }
  }

  /** With zeros on top, shifting only rotates them to the bottom. */
  lemma {:induction false} ShiftZero(k: nat, c: bits)
    requires 0 < k && k + |c| == 32
    ensures Shift(Zeros(k) + c) == Zeros(k - 1) + (c + [false])
  {
    hide Xor, Polynomial;
    var z := Zeros(k) + c;
    assert !z[0] && z[1..] + [false] == Zeros(k - 1) + (c + [false]);
  }

  lemma {:induction false} ZerosMove(k: nat, c: bits)
    requires 0 < k
    ensures c + [false] + Zeros(k - 1) == c + Zeros(k)
  {
  }

  lemma {:induction false} NoShift(c: bits)
    requires |c| == 32
    ensures Shifts(Zeros(0) + c, 0) == c + Zeros(0)
  {
    assert Zeros(0) + c == c == c + Zeros(0);
  }

  lemma {:induction false} ShiftsStep(c: bits, n: nat)
    requires |c| == 32 && 0 < n
    ensures Shifts(c, n) == Shifts(Shift(c), n - 1)
  {
    hide Shift;
  }

  lemma {:induction false} ZerosShiftThrough(k: nat, c: bits)
    requires k + |c| == 32
    ensures Shifts(Zeros(k) + c, k) == c + Zeros(k)
    decreases k
  {
    hide *;
    if k == 0 {
      NoShift(c);
    } else {
      ShiftsStep(Zeros(k) + c, k);
      ShiftZero(k, c);
      ZerosShiftThrough(k - 1, c + [false]);
      ZerosMove(k, c);
    }
  }

  /** Feeding the byte on top of the register clears it and brings the next byte up. */
  lemma {:induction false} FeedTopByte(c: bits)
    requires |c| == 32
    ensures Feed(c, [ByteOf(c[..8])]) == c[8..] + Zeros(8)
  {
    var b := ByteOf(c[..8]);
    BitsOfValue(c[..8]);
    assert Xor(c, BitsOf(b, 8)) == Zeros(8) + c[8..];
    ZerosShiftThrough(8, c[8..]);
    assert [b][1..] == [];
  }

  lemma {:induction false} FeedNothing(c: bits)
    requires |c| == 32
    ensures Feed(c, []) == c
  {
  }

  lemma {:induction false} FeedOwnBytes(c: bits, n: nat)
    requires |c| == 32 && n <= 4
    ensures Feed(c, Pack(c[..8 * n])) == c[8 * n..] + Zeros(8 * n)
    decreases n
  {
    hide Feed, BitsOf, ByteOf;
    if n == 0 {
      FeedNothing(c);
      assert c[..0] == [];
      assert c[0..] + Zeros(0) == c;
    } else {
      var top := c[..8 * n];
      var next := c[8..] + Zeros(8);
      assert top[..8] == c[..8] && top[8..] == next[..8 * (n - 1)];
      FeedTopByte(c);
      assert Pack(top) == [ByteOf(c[..8])] + Pack(next[..8 * (n - 1)]);
      FeedAppend(c, [ByteOf(c[..8])], Pack(next[..8 * (n - 1)]));
      FeedOwnBytes(next, n - 1);
      assert next[8 * (n - 1)..] + Zeros(8 * (n - 1)) == c[8 * n..] + Zeros(8 * n);
    }
  }

  /** Data followed by its own CRC leaves the register at zero. */
  lemma {:induction false} CrcOfCheckedData(d: bytes)
    ensures Feed(Ones(), d + Crc32(d)) == Zeros(32)
  {
    var c := Feed(Ones(), d);
    FeedAppend(Ones(), d, Crc32(d));
    FeedOwnBytes(c, 4);
    assert c[..32] == c && c[32..] + Zeros(32) == Zeros(32);
  }
}
