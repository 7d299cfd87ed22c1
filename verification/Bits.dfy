/** Bit strings, most significant bit first, and the bit writer of crates/core/src/ps.rs. */
module Bits {
  import opened Bytes

  type bits = seq<bool>

  function Pow2(k: nat): (r: nat)
    ensures r > 0
  {
    if k == 0 then 1 else 2 * Pow2(k - 1)
  }

  /** The `k` low bits of `n`. */
  function BitsOf(n: nat, k: nat): (r: bits)
    ensures |r| == k
    decreases k
  {
    if k == 0 then [] else BitsOf(n / 2, k - 1) + [n % 2 == 1]
  }

  function Value(b: bits): (r: nat)
    ensures r < Pow2(|b|)
  {
    if b == [] then 0 else 2 * Value(b[..|b| - 1]) + if b[|b| - 1] then 1 else 0
  }

  lemma {:induction false} BitsOfValue(b: bits)
    ensures BitsOf(Value(b), |b|) == b
  {
    if b != [] {
      BitsOfValue(b[..|b| - 1]);
      assert b == b[..|b| - 1] + [b[|b| - 1]];
    }
  }

  lemma {:induction false} ValueStep(n: nat, k: nat)
    requires 0 < k
    ensures Value(BitsOf(n, k)) == 2 * Value(BitsOf(n / 2, k - 1)) + n % 2
  {
    assert BitsOf(n, k)[..k - 1] == BitsOf(n / 2, k - 1);
  }

  lemma {:induction false} ValueOfBits(n: nat, k: nat)
    requires n < Pow2(k)
    ensures Value(BitsOf(n, k)) == n
    decreases k
  {
    if k > 0 {
      ValueOfBits(n / 2, k - 1);
      ValueStep(n, k);
    }
  }

  function Zeros(k: nat): (r: bits)
    ensures |r| == k
  {
    seq(k, i => false)
  }

  function ByteOf(b: bits): byte
    requires |b| == 8
  {
    Pow2Of8();
    Value(b)
  }

  /** The bytes of a bit string of whole bytes. */
  function Pack(b: bits): (r: bytes)
    requires |b| % 8 == 0
    ensures |r| == |b| / 8
  {
    if b == [] then [] else [ByteOf(b[..8])] + Pack(b[8..])
  }

  function Unpack(d: bytes): (r: bits)
    ensures |r| == 8 * |d|
  {
    if d == [] then [] else BitsOf(d[0], 8) + Unpack(d[1..])
  }

  lemma {:induction false} UnpackPack(b: bits)
    requires |b| % 8 == 0
    ensures Unpack(Pack(b)) == b
    decreases |b|
  {
    if b != [] {
      UnpackPack(b[8..]);
      BitsOfValue(b[..8]);
    }
  }

  lemma {:induction false} PackStep(b: bits)
    requires 8 <= |b| && |b| % 8 == 0
    ensures Pack(b) == [ByteOf(b[..8])] + Pack(b[8..])
  {
    hide ByteOf;
  }

  lemma {:induction false} UnpackStep(d: bytes)
    requires d != []
    ensures Unpack(d)[..8] == BitsOf(d[0], 8) && Unpack(d)[8..] == Unpack(d[1..])
  {
    hide BitsOf;
  }

  lemma {:induction false} PackNothing()
    ensures Pack(Unpack([])) == []
  {
  }

  lemma {:induction false} PackUnpack(d: bytes)
    ensures Pack(Unpack(d)) == d
  {
    hide *;
    if d == [] {
      PackNothing();
    } else {
      PackUnpack(d[1..]);
      ByteOfBits(d[0]);
      UnpackStep(d);
      PackStep(Unpack(d));
    }
  }

  lemma {:induction false} ByteOfBits(x: byte)
    ensures ByteOf(BitsOf(x, 8)) == x
  {
    hide BitsOf;
    Pow2Of8();
    ValueOfBits(x, 8);
  }

  lemma {:induction false} UnpackAppend(d: bytes, b: byte)
    ensures Unpack(d + [b]) == Unpack(d) + BitsOf(b, 8)
  {
    if d == [] {
      assert [] + [b] == [b] && [b][1..] == [];
    } else {
      assert (d + [b])[1..] == d[1..] + [b];
      UnpackAppend(d[1..], b);
    }
  }

  lemma {:induction false} PackAt(b: bits, i: nat)
    requires |b| % 8 == 0 && 8 * i < |b|
    ensures Pack(b)[i] == ByteOf(b[8 * i..8 * i + 8])
    decreases i
  {
    hide *;
    PackStep(b);
    if i > 0 {
      PackAt(b[8..], i - 1);
      SliceOfDrop(b, 8, 8 * (i - 1), 8 * i);
    }
  }

  // ---- the bit writer ----

  /** `value >> k`. */
  function Shr(value: nat, k: nat): nat {
    if k == 0 then value else Shr(value, k - 1) / 2
  }

  /** `value << k` before truncation. */
  function Shl(value: nat, k: nat): nat {
    if k == 0 then value else 2 * Shl(value, k - 1)
  }

  lemma {:induction false} ShlFits(n: nat, k: nat, z: nat)
    requires n < Pow2(k)
    ensures Shl(n, z) < Pow2(k + z)
    decreases z
  {
    if z > 0 {
      ShlFits(n, k, z - 1);
    }
  }

  lemma {:induction false} BitsOfShifted(n: nat, k: nat, z: nat)
    ensures BitsOf(Shl(n, z), k + z) == BitsOf(n, k) + Zeros(z)
    decreases z
  {
    if z > 0 {
      BitsOfShifted(n, k, z - 1);
      assert Zeros(z) == Zeros(z - 1) + [false];
    }
  }

  class BitWriter {
    var data: bytes
    var current: byte
    var used: nat

    ghost predicate Valid()
      reads this
    {
      used < 8 && current < Pow2(used)
    }

    /** Every bit written so far. */
    ghost function Written(): bits
      reads this
    {
      Unpack(data) + BitsOf(current, used)
    }

    constructor ()
      ensures Valid() && Written() == []
    {
      data, current, used := [], 0, 0;
    }

    method PushBit(bit: byte)
      requires Valid() && bit < 2
      modifies this
      ensures Valid() && Written() == old(Written()) + [bit == 1]
    {
      hide BitsOf, Unpack, Pow2;
      BitStep(data, current, used, bit);
      current := 2 * current + bit;
      used := used + 1;
      if used == 8 {
        data := data + [current];
        current := 0;
        used := 0;
      }
    }

    method Push(value: nat, bitCount: nat)
      requires Valid()
      modifies this
      ensures Valid() && Written() == old(Written()) + BitsOf(value, bitCount)
    {
      hide BitsOf, Unpack, Pow2, Shr, TopBits;
      TopBitsEnds(value, bitCount);
      var shift := bitCount;
      while shift > 0
        invariant 0 <= shift <= bitCount
        invariant Valid()
        invariant Written() == old(Written()) + TopBits(value, bitCount, shift)
      {
        TopBitsStep(value, bitCount, shift);
        shift := shift - 1;
        PushBit(Shr(value, shift) % 2);
      }
    }

    /** Pads the last byte with zero bits. */
    method Finish() returns (r: bytes)
      requires Valid()
      modifies this
      ensures |Padded(old(Written()))| % 8 == 0
      ensures r == Pack(Padded(old(Written())))
    {
      hide BitsOf, Unpack, Pow2, Pack;
      PaddedIs(data, current, used);
      if used != 0 {
        data := data + [Shl(current, 8 - used)];
      }
      return data;
    }
  }

  /** The bits of `value` above the lowest `shift` of `count`. */
  function TopBits(value: nat, count: nat, shift: nat): bits
    requires shift <= count
  {
    BitsOf(Shr(value, shift), count - shift)
  }

  lemma {:induction false} TopBitsStep(value: nat, count: nat, shift: nat)
    requires 0 < shift <= count
    ensures TopBits(value, count, shift - 1) == TopBits(value, count, shift) + [Shr(value, shift - 1) % 2 == 1]
  {
  }

  lemma {:induction false} TopBitsEnds(value: nat, count: nat)
    ensures TopBits(value, count, count) == [] && TopBits(value, count, 0) == BitsOf(value, count)
  {
  }

  lemma {:induction false} BitStep(data: bytes, current: byte, used: nat, bit: byte)
    requires used < 8 && current < Pow2(used) && bit < 2
    ensures 2 * current + bit < Pow2(used + 1) && 2 * current + bit < 0x100 && Pow2(0) == 1
    ensures Unpack(data) + BitsOf(2 * current + bit, used + 1) == Unpack(data) + BitsOf(current, used) + [bit == 1]
    ensures used == 7 ==> Unpack(data + [2 * current + bit]) + BitsOf(0, 0)
                          == Unpack(data) + BitsOf(current, used) + [bit == 1]
  {
    NextBits(current, used, bit);
    hide BitsOf, Unpack;
    var u, b := Unpack(data), BitsOf(current, used);
    assert u + (b + [bit == 1]) == u + b + [bit == 1];
    if used == 7 {
      UnpackAppend(data, 2 * current + bit);
      assert |BitsOf(0, 0)| == 0;
    }
  }

  lemma {:induction false} NextBits(current: byte, used: nat, bit: byte)
    requires used < 8 && current < Pow2(used) && bit < 2
    ensures 2 * current + bit < Pow2(used + 1) && 2 * current + bit < 0x100 && Pow2(0) == 1
    ensures BitsOf(2 * current + bit, used + 1) == BitsOf(current, used) + [bit == 1]
  {
    Pow2Of8();
    Pow2Grows(used + 1, 8);
    BitsOfStep(current, used, bit);
    hide BitsOf;
  }

  lemma {:induction false} BitsOfStep(n: nat, k: nat, bit: nat)
    requires bit < 2
    ensures BitsOf(2 * n + bit, k + 1) == BitsOf(n, k) + [bit == 1]
  {
  }

  /** Zero bits up to the next byte boundary. */
  function Padded(b: bits): (r: bits) {
    if |b| % 8 == 0 then b else b + Zeros(8 - |b| % 8)
  }

  lemma {:induction false} PaddedIs(data: bytes, current: byte, used: nat)
    requires used < 8 && current < Pow2(used)
    ensures used > 0 ==> Shl(current, 8 - used) < 0x100
    ensures var w := Padded(Unpack(data) + BitsOf(current, used));
            |w| % 8 == 0 && Pack(w) == if used == 0 then data else data + [Shl(current, 8 - used)]
  {
    hide BitsOf, Unpack, Pow2, Shl, Pack, Zeros;
    var w := Unpack(data) + BitsOf(current, used);
    if used == 0 {
      assert w == Unpack(data);
      PackUnpack(data);
    } else {
      ShlFits(current, used, 8 - used);
      Pow2Of8();
      var last := Shl(current, 8 - used);
      BitsOfShifted(current, used, 8 - used);
      UnpackAppend(data, last);
      assert w + Zeros(8 - used) == Unpack(data) + (BitsOf(current, used) + Zeros(8 - used));
      PackUnpack(data + [last]);
    }
  }

  lemma {:induction false} Pow2Of8()
    ensures Pow2(8) == 256
  {
    assert Pow2(2) == 4; assert Pow2(4) == 16; assert Pow2(6) == 64;
  }

  lemma {:induction false} Pow2Grows(k: nat, n: nat)
    requires k <= n
    ensures Pow2(k) <= Pow2(n)
    decreases n
  {
    if k < n {
      Pow2Grows(k, n - 1);
    }
  }
}
