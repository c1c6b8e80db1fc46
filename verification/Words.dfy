/** Fixed-width words of the host program, kept as bounded integers.

    Addresses and general register contents are integers below 2^32 and every
    operation that can overflow goes through Wrap.  Registers that the program
    only uses as bit maps (PSW, IE, the pending flags, ...) are `Bits` instead. */
module Words {

  type u8 = x: int | 0 <= x < 0x100
  type u32 = x: int | 0 <= x < 0x1_0000_0000

  datatype Option<+T> = None | Some(value: T)

  /** A word used as a bit map. */
  datatype Bits = Bits(w: bv32)

  predicate On(x: Bits, mask: bv32) {
    x.w & mask != 0
  }

  predicate Meet(x: Bits, y: Bits) {
    x.w & y.w != 0
  }

  predicate IsZero(x: Bits) {
    x.w == 0
  }

  function Set(x: Bits, mask: bv32): Bits {
    Bits(x.w | mask)
  }

  function Clear(x: Bits, mask: bv32): Bits {
    Bits(x.w & !mask)
  }

  function Keep(x: Bits, mask: bv32): Bits {
    Bits(x.w & mask)
  }

  /** Bit `to` made equal to bit `from`. */
  function CopyBit(x: Bits, from: bv32, to: bv32): Bits {
    if On(x, from) then Set(x, to) else Clear(x, to)
  }

  function FromBits(x: Bits): u32 {
    x.w as int
  }

  function ToBits(w: u32): Bits {
    Bits(w as bv32)
  }

  /** Unsigned 32-bit truncation. */
  function Wrap(x: int): u32 {
    x % 0x1_0000_0000
  }

  /** The int32_t reading of a 32-bit word. */
  function Signed(w: u32): int {
    if w < 0x8000_0000 then w else w - 0x1_0000_0000
  }

  // The SIGN_EXT macros, on values of the width they are given.
  function SignExt8(v: u8): u32 {
    if v < 0x80 then v else v + 0xffff_ff00
  }

  function SignExt16(v: int): u32
    requires 0 <= v < 0x1_0000
  {
    if v < 0x8000 then v else v + 0xffff_0000
  }

  function SignExt18(v: int): u32
    requires 0 <= v < 0x4_0000
  {
    if v < 0x2_0000 then v else v + 0xfffc_0000
  }

  function SignExt28(v: int): u32
    requires 0 <= v < 0x1000_0000
  {
    if v < 0x800_0000 then v else v + 0xf000_0000
  }

  // ---------------------------------------------------------------------------
  // Bitwise AND of naturals, and masks that are one less than a power of two
  // ---------------------------------------------------------------------------

  function BitAnd(a: nat, b: nat): nat {
    if a == 0 || b == 0 then 0 else 2 * BitAnd(a / 2, b / 2) + (a % 2) * (b % 2)
  }

  function Pow2(k: nat): (p: nat)
    ensures p > 0
  {
    if k == 0 then 1 else 2 * Pow2(k - 1)
  }

  lemma HalfMod(a: nat, m: nat)
    requires m > 0
    ensures a % (2 * m) == 2 * ((a / 2) % m) + a % 2
  {
    var q, r := (a / 2) / m, (a / 2) % m;
    assert a == (2 * m) * q + (2 * r + a % 2) by {
      assert a / 2 == m * q + r;
      assert (2 * m) * q == 2 * (m * q);
    }
    ModUnique(a, 2 * m, q, 2 * r + a % 2);
  }

  /** A multiple of d strictly between -d and d is zero. */
  lemma SmallMultiple(d: int, k: int)
    requires -d < d * k < d
    ensures k == 0
  {
  }

  /** Quotient and remainder are determined by a = d*q + r with r in range. */
  lemma ModUnique(a: int, d: int, q: int, r: int)
    requires 0 <= r < d
    requires a == d * q + r
    ensures a / d == q && a % d == r
  {
    var k := q - a / d;
    assert d * k == a % d - r by {
      assert d * k == d * q - d * (a / d);
    }
    SmallMultiple(d, k);
  }

  /** Masking with 2^k - 1 is reduction modulo 2^k. */
  lemma {:induction false} MaskIsMod(a: nat, k: nat)
    ensures BitAnd(a, Pow2(k) - 1) == a % Pow2(k)
    decreases k
  {
    if k == 0 {
    } else {
      MaskIsMod(a / 2, k - 1);
      MaskStep(a, Pow2(k - 1));
    }
  }

  lemma MaskStep(a: nat, m: nat)
    requires m > 0 && BitAnd(a / 2, m - 1) == (a / 2) % m
    ensures BitAnd(a, 2 * m - 1) == a % (2 * m)
  {
    hide BitAnd;
    AndOdd(a, m - 1);
    HalfMod(a, m);
  }

  lemma AndOdd(a: nat, h: nat)
    ensures BitAnd(a, 2 * h + 1) == 2 * BitAnd(a / 2, h) + a % 2
  {
    ModUnique(2 * h + 1, 2, h, 1);
    if a == 0 {
      assert BitAnd(a / 2, h) == 0;
    } else {
      assert (a % 2) * 1 == a % 2;
    }
  }

  // ---------------------------------------------------------------------------
  // The other bitwise operators
  // ---------------------------------------------------------------------------

  lemma {:induction false} OrBound(x: nat, y: nat, k: nat)
    requires x < Pow2(k) && y < Pow2(k)
    ensures BitAnd(x, y) <= x && BitAnd(x, y) <= y
    ensures x + y - BitAnd(x, y) < Pow2(k)
    decreases k
  {
    if x != 0 && y != 0 {
      OrBound(x / 2, y / 2, k - 1);
    }
  }

  lemma Pow32()
    ensures Pow2(32) == 0x1_0000_0000
  {
    assert Pow2(8) == 0x100;
    assert Pow2(16) == 0x1_0000;
    assert Pow2(24) == 0x100_0000;
  }

  function Or32(x: u32, y: u32): u32 {
    Pow32();
    OrBound(x, y, 32);
    x + y - BitAnd(x, y)
  }

  function And32(x: u32, y: u32): u32 {
    Pow32();
    OrBound(x, y, 32);
    BitAnd(x, y)
  }

  function Xor32(x: u32, y: u32): u32 {
    Pow32();
    OrBound(x, y, 32);
    AndTwice(x, y);
    x + y - 2 * BitAnd(x, y)
  }

  lemma AndTwice(x: nat, y: nat)
    ensures 2 * BitAnd(x, y) <= x + y
  {
  }

  function Not32(x: u32): u32 {
    0xffff_ffff - x
  }
}
