/** Bit strings and the machine words that carry them. */
module Bits {

  type Byte = x: nat | x < 256

  function Pow2(n: nat): (p: nat)
    ensures p > 0
  {
    if n == 0 then 1 else 2 * Pow2(n - 1)
  }

  const U32: nat := 0x1_0000_0000

  /** `x << n` on a `u32`: the high bits are lost. */
  function Shl(x: nat, n: nat): nat {
    (x * Pow2(n)) % U32
  }

  /** `x >> n`: halved `n` times. */
  function Shr(x: nat, n: nat): nat {
    if n == 0 then x else Shr(x / 2, n - 1)
  }

  /** The low `n` bits of `x`, most significant first. */
  function LowBits(x: nat, n: nat): (r: seq<bool>)
    ensures |r| == n
  {
    if n == 0 then [] else LowBits(x / 2, n - 1) + [x % 2 == 1]
  }

  function Value(bits: seq<bool>): nat {
    if bits == [] then 0 else 2 * Value(bits[..|bits| - 1]) + (if bits[|bits| - 1] then 1 else 0)
  }

  function Zeros(n: nat): (r: seq<bool>)
    ensures |r| == n && forall i :: 0 <= i < n ==> !r[i]
  {
    seq(n, _ => false)
  }

  lemma Pow2Values()
    ensures Pow2(0) == 1 && Pow2(1) == 2 && Pow2(2) == 4 && Pow2(3) == 8 && Pow2(4) == 16 && Pow2(5) == 32
    ensures Pow2(8) == 256 && Pow2(32) == U32
  {
    assert Pow2(8) == 256;
    assert Pow2(16) == 0x1_0000 by { assert Pow2(12) == 0x1000; }
    assert Pow2(24) == 0x100_0000 by { assert Pow2(20) == 0x10_0000; }
    assert Pow2(32) == U32 by { assert Pow2(28) == 0x1000_0000; }
  }

  lemma {:induction false} ValueBound(bits: seq<bool>)
    ensures Value(bits) < Pow2(|bits|)
  {
    if bits != [] {
      ValueBound(bits[..|bits| - 1]);
    }
  }

  lemma {:induction false} LowBitsValue(bits: seq<bool>)
    ensures LowBits(Value(bits), |bits|) == bits
  {
    if bits != [] {
      var front := bits[..|bits| - 1];
      LowBitsValue(front);
      assert Value(bits) / 2 == Value(front);
      assert bits == front + [bits[|bits| - 1]];
    }
  }

  lemma {:induction false} ValueLowBits(x: nat, n: nat)
    requires x < Pow2(n)
    ensures Value(LowBits(x, n)) == x
  {
    if n > 0 {
      ValueLowBits(x / 2, n - 1);
      var bits := LowBits(x, n);
      assert bits[..|bits| - 1] == LowBits(x / 2, n - 1);
    }
  }

  /** Multiples of a power of two do not show in the bits below it. */
  lemma {:induction false} LowBitsAdd(x: nat, c: nat, m: nat, n: nat)
    requires n <= m
    ensures LowBits(x + c * Pow2(m), n) == LowBits(x, n)
  {
    if n > 0 {
      var p := c * Pow2(m - 1);
      assert c * Pow2(m) == 2 * p;
      assert (x + 2 * p) / 2 == x / 2 + p;
      LowBitsAdd(x / 2, c, m - 1, n - 1);
    }
  }

  /** Masking with `0x1f` and `0xff` keeps the low bits. */
  lemma LowBitsMask(x: nat)
    ensures LowBits(x % 32, 5) == LowBits(x, 5)
    ensures LowBits(x % 256, 8) == LowBits(x, 8)
  {
    Pow2Values();
    assert x == x % 32 + (x / 32) * 32;
    LowBitsAdd(x % 32, x / 32, 5, 5);
    assert x == x % 256 + (x / 256) * 256;
    LowBitsAdd(x % 256, x / 256, 8, 8);
  }

  /** The bits of a number shifted up with another placed below. */
  lemma {:induction false} LowBitsConcat(x: nat, y: nat, k: nat, n: nat)
    requires y < Pow2(n)
    ensures LowBits(x * Pow2(n) + y, k + n) == LowBits(x, k) + LowBits(y, n)
  {
    if n == 0 {
      assert LowBits(x, k) + [] == LowBits(x, k);
    } else {
      var p := x * Pow2(n - 1);
      assert x * Pow2(n) == 2 * p;
      assert (2 * p + y) / 2 == p + y / 2;
      LowBitsConcat(x, y / 2, k, n - 1);
      assert LowBits(x, k) + (LowBits(y / 2, n - 1) + [y % 2 == 1]) == LowBits(x, k) + LowBits(y / 2, n - 1) + [y % 2 == 1];
    }
  }

  /** Shifting in on a truncating 32-bit word appends bits, as long as they fit. */
  lemma ShiftIn(buffer: nat, y: nat, k: nat, n: nat)
    requires y < Pow2(n) && k + n <= 32
    ensures LowBits(Shl(buffer, n) + y, k + n) == LowBits(buffer, k) + LowBits(y, n)
  {
    Pow2Values();
    var wide := buffer * Pow2(n);
    var low := wide % U32;
    assert wide + y == low + y + (wide / U32) * U32;
    LowBitsAdd(low + y, wide / U32, 32, k + n);
    LowBitsConcat(buffer, y, k, n);
  }

  /** Splitting the pending bits at position `k`. */
  lemma {:induction false} ShiftOut(buffer: nat, k: nat, n: nat)
    ensures LowBits(buffer, n + k) == LowBits(Shr(buffer, k), n) + LowBits(buffer, k)
  {
    if k == 0 {
      assert LowBits(buffer, n) + [] == LowBits(buffer, n);
    } else {
      ShiftOut(buffer / 2, k - 1, n);
      var high, low, last := LowBits(Shr(buffer, k), n), LowBits(buffer / 2, k - 1), [buffer % 2 == 1];
      assert high + (low + last) == high + low + last;
    }
  }
}
