/** Machine-integer helpers shared by the driver models: the C integer widths of a
    64-bit RISC-V kernel (unsigned long and size_t are 64 bits, int is 32 bits),
    the split of a 64-bit value into the two 32-bit words a register write takes,
    and the kernel's integer base-2 logarithm. */
module Bits {

  const TWO32: int := 0x1_0000_0000
  const TWO63: int := 0x8000_0000_0000_0000
  const TWO64: int := 0x1_0000_0000_0000_0000

  /** unsigned long, size_t, uintptr_t */
  type U64 = x: int | 0 <= x < TWO64
  /** uint32_t */
  type U32 = x: int | 0 <= x < TWO32
  /** int */
  type Int32 = x: int | -0x8000_0000 <= x < 0x8000_0000

  /** Conversion of any integer to a 64-bit unsigned type (wraps modulo 2^64). */
  function ToU64(x: int): U64 {
    x % TWO64
  }

  lemma SmallU64(x: int)
    requires 0 <= x < TWO64
    ensures ToU64(x) == x
  {
  }

  /** Conversion of any integer to int: two's-complement truncation to 32 bits. */
  function ToInt32(x: int): (r: Int32)
    ensures (r - x) % TWO32 == 0
    ensures -0x8000_0000 <= x < 0x8000_0000 ==> r == x
  {
    var m := x % TWO32;
    if m < 0x8000_0000 then m else m - TWO32
  }

  /** The low 32 bits, as the cast to uint32_t takes them. */
  function Lo(x: bv64): bv32 {
    (x & 0xFFFF_FFFF) as bv32
  }

  /** The high 32 bits. */
  function Hi(x: bv64): bv32 {
    (x >> 32) as bv32
  }

  lemma WordSplitBits(x: bv64)
    ensures ((x >> 32) << 32) | (x & 0xFFFF_FFFF) == x
  {
  }

  /** Writing the low word and then the high word transfers the whole value: the
      two words recombine to it. */
  lemma WordsRecombine(x: bv64)
    ensures ((Hi(x) as bv64) << 32) | (Lo(x) as bv64) == x
  {
    assert Lo(x) as bv64 == x & 0xFFFF_FFFF;
    assert Hi(x) as bv64 == x >> 32;
    WordSplitBits(x);
  }

  function Pow2(k: nat): (r: nat)
    ensures r >= 1
  {
    if k == 0 then 1 else 2 * Pow2(k - 1)
  }

  /** ilog2: the position of the highest set bit of a positive value. */
  function Log2(n: nat): nat
    requires n >= 1
  {
    if n == 1 then 0 else 1 + Log2(n / 2)
  }

  /** ilog2(n) is the unique k with 2^k <= n < 2^(k+1). */
  lemma {:induction false} Log2Bounds(n: nat)
    requires n >= 1
    ensures Pow2(Log2(n)) <= n < Pow2(Log2(n) + 1)
  {
    if n > 1 {
      Log2Bounds(n / 2);
    }
  }

  lemma {:induction false} Log2OfPow2(k: nat)
    ensures Log2(Pow2(k)) == k
  {
    if k > 0 {
      assert Pow2(k) / 2 == Pow2(k - 1);
      Log2OfPow2(k - 1);
    }
  }

  lemma {:induction false} Pow2Monotone(i: nat, j: nat)
    requires i <= j
    ensures Pow2(i) <= Pow2(j)
  {
    if i < j {
      Pow2Monotone(i, j - 1);
    }
  }

  lemma {:induction false} Pow2Add(i: nat, j: nat)
    ensures Pow2(i + j) == Pow2(i) * Pow2(j)
  {
    if i > 0 {
      Pow2Add(i - 1, j);
    }
  }

  /** A value below 2^k has its highest set bit below position k. */
  lemma {:induction false} Log2Below(n: nat, k: nat)
    requires 1 <= n < Pow2(k)
    ensures Log2(n) < k
  {
    if n > 1 {
      assert k > 0;
      Log2Below(n / 2, k - 1);
    }
  }

  lemma {:induction false} Log2Monotone(a: nat, b: nat)
    requires 1 <= a <= b
    ensures Log2(a) <= Log2(b)
  {
    if a > 1 {
      Log2Monotone(a / 2, b / 2);
    }
  }

  lemma Pow2Of32()
    ensures Pow2(32) == TWO32
  {
    assert Pow2(4) == 16;
    Pow2Add(4, 4);
    Pow2Add(8, 8);
    Pow2Add(16, 16);
  }

  /** Every bit position of a 32-bit word gives a power of two below 2^32. */
  lemma Pow2Below32(k: nat)
    requires k < 32
    ensures Pow2(k) < TWO32
  {
    Pow2Monotone(k + 1, 32);
    Pow2Of32();
  }

  /** x >> k on a non-negative value. */
  function Shr(x: nat, k: nat): nat {
    if k == 0 then x else Shr(x / 2, k - 1)
  }

  lemma {:induction false} ShrAtMost(x: nat, k: nat)
    ensures Shr(x, k) <= x
  {
    if k > 0 {
      ShrAtMost(x / 2, k - 1);
    }
  }

  /** Shifting back left never exceeds the original value. */
  lemma {:induction false} ShrMul(x: nat, k: nat)
    ensures Shr(x, k) * Pow2(k) <= x
  {
    if k > 0 {
      ShrMul(x / 2, k - 1);
      assert Shr(x, k) * Pow2(k) == 2 * (Shr(x / 2, k - 1) * Pow2(k - 1));
    }
  }

  /** a << k <= c exactly when a <= c >> k. */
  lemma {:induction false} ShrBound(a: nat, c: nat, k: nat)
    ensures a * Pow2(k) <= c <==> a <= Shr(c, k)
  {
    if k > 0 {
      ShrBound(a, c / 2, k - 1);
      assert a * Pow2(k) == 2 * (a * Pow2(k - 1));
    }
  }

  lemma MulNat(a: nat, b: nat)
    ensures a * b >= 0
  {
  }

  lemma MulMonotone(a: nat, b: nat, c: nat, d: nat)
    requires a <= b && c <= d
    ensures a * c <= b * d
  {
    assert a * c <= b * c;
    assert b * c <= b * d;
  }
}
