/** Laws that tie the arithmetic, logical and comparison instructions to each
    other and to what they mean on numbers and on bits. */
module Arithmetic {
  import opened Words
  import opened Isa
  import Instructions

  // ---------------------------------------------------------------------------
  // Sums and products
  // ---------------------------------------------------------------------------

  /** The next word, after the last one the first. */
  function Successor(a: u32): u32 {
    if a == 0xffff_ffff then 0 else a + 1
  }

  /** Addition counts: adding nothing changes nothing, and adding one more gives
      the next word. */
  lemma AddCounts(a: u32, b: u32)
    ensures AluValue(Add, a, 0) == a
    ensures b < 0xffff_ffff ==> AluValue(Add, a, b + 1) == Successor(AluValue(Add, a, b))
    ensures AluValue(Add, a, b) == AluValue(Add, b, a)
    ensures AluValue(Sub, AluValue(Add, a, b), b) == a
    ensures AluValue(Add, AluValue(Sub, a, b), b) == a
  {
    hide AluValue;
    SumIs(a, 0);
    SumIs(a, b);
    SumIs(b, a);
    DifferenceIs(a, b);
    DifferenceIs(AluValue(Add, a, b), b);
    SumIs(AluValue(Sub, a, b), b);
    if b < 0xffff_ffff {
      SumIs(a, b + 1);
    }
  }

  /** At most one carry, and at most one borrow. */
  lemma SumIs(a: u32, b: u32)
    ensures AluValue(Add, a, b) == if a + b < 0x1_0000_0000 then a + b else a + b - 0x1_0000_0000
  {
    hide ShiftLeft, ShiftRight, ArithmeticShift, BitAnd;
  }

  lemma DifferenceIs(a: u32, b: u32)
    ensures AluValue(Sub, a, b) == if a >= b then a - b else a - b + 0x1_0000_0000
  {
    hide ShiftLeft, ShiftRight, ArithmeticShift, BitAnd;
  }

  /** It is the sum of signed numbers, unless that overflows; so with differences. */
  lemma SignedSums(a: u32, b: u32)
    ensures -0x8000_0000 <= Signed(a) + Signed(b) < 0x8000_0000 ==>
      Signed(AluValue(Add, a, b)) == Signed(a) + Signed(b)
    ensures -0x8000_0000 <= Signed(a) - Signed(b) < 0x8000_0000 ==>
      Signed(AluValue(Sub, a, b)) == Signed(a) - Signed(b)
  {
    hide AluValue;
    SumIs(a, b);
    DifferenceIs(a, b);
  }

  lemma WrapSum(x: int, y: int)
    ensures Wrap(Wrap(x) + y) == Wrap(x + y)
  {
    Instructions.WrapAdds(Wrap(x) + y, x / 0x1_0000_0000);
    assert Wrap(x) + y + 0x1_0000_0000 * (x / 0x1_0000_0000) == x + y;
  }

  /** Multiplication is repeated addition, on either side. */
  lemma MulRepeatsAdd(a: u32, b: u32)
    ensures AluValue(Mul, a, 0) == 0
    ensures b < 0xffff_ffff ==> AluValue(Mul, a, b + 1) == AluValue(Add, AluValue(Mul, a, b), a)
    ensures AluValue(Mul, a, b) == AluValue(Mul, b, a)
  {
    hide ShiftLeft, ShiftRight, ArithmeticShift, BitAnd, Wrap;
    MulStep(a, b);
    WrapSum(a * b, a);
    NoProduct(a);
  }

  lemma MulStep(a: int, b: int)
    ensures a * (b + 1) == a * b + a && a * b == b * a
  {
  }

  lemma NoProduct(a: u32)
    ensures Wrap(a * 0) == 0
  {
  }

  /** It is the product of signed numbers, unless that overflows. */
  lemma SignedProducts(a: u32, b: u32)
    ensures -0x8000_0000 <= Signed(a) * Signed(b) < 0x8000_0000 ==>
      Signed(AluValue(Mul, a, b)) == Signed(a) * Signed(b)
  {
    hide ShiftLeft, ShiftRight, ArithmeticShift, BitAnd, Wrap, Signed;
    var x, y := Signed(a), Signed(b);
    var i, j := SignBit(a), SignBit(b);
    assert a == x + 0x1_0000_0000 * i && b == y + 0x1_0000_0000 * j;
    Expand(x, i, y, j);
    Instructions.WrapAdds(x * y, x * j + i * y + 0x1_0000_0000 * (i * j));
    if -0x8000_0000 <= x * y < 0x8000_0000 {
      Instructions.SignedWrap(x * y);
    }
  }

  function SignBit(a: u32): (i: nat)
    ensures a == Signed(a) + 0x1_0000_0000 * i
  {
    if a < 0x8000_0000 then 0 else 1
  }

  lemma Expand(x: int, i: int, y: int, j: int)
    ensures (x + 0x1_0000_0000 * i) * (y + 0x1_0000_0000 * j)
            == x * y + 0x1_0000_0000 * (x * j + i * y + 0x1_0000_0000 * (i * j))
  {
    var n := 0x1_0000_0000;
    assert (x + n * i) * (y + n * j) == x * y + x * (n * j) + (n * i) * y + (n * i) * (n * j);
    assert x * (n * j) == n * (x * j) && (n * i) * y == n * (i * y);
    assert (n * i) * (n * j) == n * (n * (i * j)) by {
      assert (n * i) * (n * j) == n * (i * (n * j)) && i * (n * j) == n * (i * j);
    }
  }

  // ---------------------------------------------------------------------------
  // Bits
  // ---------------------------------------------------------------------------

  /** Bit k of a word. */
  function Bit(a: nat, k: nat): (b: nat)
    ensures b < 2
    decreases k
  {
    if k == 0 then a % 2 else Bit(a / 2, k - 1)
  }

  lemma {:induction false} BitIsDigit(a: u32, k: nat)
    ensures Bit(a, k) == a / Pow2(k) % 2
    decreases k
  {
    if k > 0 {
      BitIsDigit(a / 2, k - 1);
      Instructions.DivTwice(a, Pow2(k - 1));
    } else {
      assert Pow2(0) == 1;
    }
  }

  lemma HalfOfAnd(a: nat, b: nat)
    ensures BitAnd(a, b) / 2 == BitAnd(a / 2, b / 2) && BitAnd(a, b) % 2 == (a % 2) * (b % 2)
  {
    Parity(a, b);
    if a == 0 || b == 0 {
      assert BitAnd(a, b) == 0 && BitAnd(a / 2, b / 2) == 0;
    } else {
      ModUnique(BitAnd(a, b), 2, BitAnd(a / 2, b / 2), (a % 2) * (b % 2));
    }
  }

  lemma {:induction false} BitOfAnd(a: nat, b: nat, k: nat)
    ensures Bit(BitAnd(a, b), k) == Bit(a, k) * Bit(b, k)
    decreases k
  {
    hide BitAnd;
    HalfOfAnd(a, b);
    if k > 0 {
      BitOfAnd(a / 2, b / 2, k - 1);
    }
  }

  lemma Parity(a: nat, b: nat)
    ensures (a % 2) * (b % 2) == if a % 2 == 1 && b % 2 == 1 then 1 else 0
  {
  }

  lemma {:induction false} BitOfOr(a: nat, b: nat, k: nat)
    requires BitAnd(a, b) <= a + b
    ensures Bit(a + b - BitAnd(a, b), k) == if Bit(a, k) == 1 || Bit(b, k) == 1 then 1 else 0
    decreases k
  {
    hide BitAnd;
    HalfOfAnd(a, b);
    Parity(a, b);
    AndTwice(a / 2, b / 2);
    var o := a + b - BitAnd(a, b);
    assert o / 2 == a / 2 + b / 2 - BitAnd(a / 2, b / 2);
    if k > 0 {
      BitOfOr(a / 2, b / 2, k - 1);
    }
  }

  lemma {:induction false} BitOfXor(a: nat, b: nat, k: nat)
    requires 2 * BitAnd(a, b) <= a + b
    ensures Bit(a + b - 2 * BitAnd(a, b), k) == if Bit(a, k) != Bit(b, k) then 1 else 0
    decreases k
  {
    hide BitAnd;
    HalfOfAnd(a, b);
    Parity(a, b);
    AndTwice(a / 2, b / 2);
    var o := a + b - 2 * BitAnd(a, b);
    assert o / 2 == a / 2 + b / 2 - 2 * BitAnd(a / 2, b / 2);
    if k > 0 {
      BitOfXor(a / 2, b / 2, k - 1);
    }
  }

  lemma {:induction false} BitOfComplement(a: nat, n: nat, k: nat)
    requires a < Pow2(n) && k < n
    ensures Bit(Pow2(n) - 1 - a, k) == 1 - Bit(a, k)
    decreases k
  {
    var c, p := Pow2(n) - 1 - a, Pow2(n - 1);
    assert Pow2(n) == 2 * p;
    assert c % 2 == 1 - a % 2 && c / 2 == p - 1 - a / 2;
    if k > 0 {
      BitOfComplement(a / 2, n - 1, k - 1);
    }
  }

  lemma BitOfNot(a: u32, k: nat)
    requires k < 32
    ensures Bit(Not32(a), k) == 1 - Bit(a, k)
  {
    Pow32();
    hide Pow2;
    BitOfComplement(a, 32, k);
  }

  /** The logical operations, bit by bit. */
  lemma LogicByBits(a: u32, b: u32, k: nat)
    requires k < 32
    ensures Bit(AluValue(And, a, b), k) == 1 <==> Bit(a, k) == 1 && Bit(b, k) == 1
    ensures Bit(AluValue(Or, a, b), k) == 1 <==> Bit(a, k) == 1 || Bit(b, k) == 1
    ensures Bit(AluValue(Xor, a, b), k) == 1 <==> Bit(a, k) != Bit(b, k)
    ensures Bit(AluValue(Nor, a, b), k) == 1 <==> Bit(a, k) == 0 && Bit(b, k) == 0
    ensures Bit(AluValue(Xnor, a, b), k) == 1 <==> Bit(a, k) == Bit(b, k)
  {
    hide ShiftLeft, ShiftRight, ArithmeticShift, BitAnd, Bit, Wrap, Signed;
    BitOfAnd(a, b, k);
    AndTwice(a, b);
    BitOfOr(a, b, k);
    BitOfXor(a, b, k);
    BitOfNot(Or32(a, b), k);
    BitOfNot(Xor32(a, b), k);
  }

  /** And a word is determined by its bits. */
  lemma {:induction false} SameBits(a: nat, b: nat, n: nat)
    requires a < Pow2(n) && b < Pow2(n)
    requires forall k :: 0 <= k < n ==> Bit(a, k) == Bit(b, k)
    ensures a == b
    decreases n
  {
    if n > 0 {
      assert Bit(a, 0) == Bit(b, 0);
      forall k | 0 <= k < n - 1
        ensures Bit(a / 2, k) == Bit(b / 2, k)
      {
        assert Bit(a, k + 1) == Bit(b, k + 1);
      }
      SameBits(a / 2, b / 2, n - 1);
    }
  }

  // ---------------------------------------------------------------------------
  // Comparisons and branches
  // ---------------------------------------------------------------------------

  /** A comparison gives 1 or 0. */
  predicate Says(op: AluOp, a: u32, b: u32)
    requires !ShiftOp(op)
  {
    AluValue(op, a, b) == 1
  }

  /** Equality is a difference of 0; the unsigned order is that of quotients; the
      signed order is the unsigned one with the sign bits turned over; and the
      comparisons come in pairs of which exactly one says yes. */
  lemma Comparisons(a: u32, b: u32)
    ensures Says(CmpE, a, b) <==> AluValue(Sub, a, b) == 0
    ensures Says(CmpGeu, a, b) <==> b == 0 || DivValue(Divu, a, b) != 0
    ensures var x, y := AluValue(Add, a, 0x8000_0000), AluValue(Add, b, 0x8000_0000);
      (Says(CmpGe, a, b) <==> Says(CmpGeu, x, y)) && (Says(CmpG, a, b) <==> Says(CmpGu, x, y))
    ensures Says(CmpNe, a, b) <==> !Says(CmpE, a, b)
    ensures Says(CmpGu, a, b) <==> !Says(CmpGeu, b, a)
    ensures Says(CmpG, a, b) <==> !Says(CmpGe, b, a)
  {
    EqualIsNoDifference(a, b);
    OffsetOrder(a, b);
    Opposites(a, b);
    hide AluValue;
    if b != 0 {
      QuotientZero(a, b);
    }
  }

  lemma EqualIsNoDifference(a: u32, b: u32)
    ensures Says(CmpE, a, b) <==> AluValue(Sub, a, b) == 0
  {
    DifferenceIs(a, b);
    hide ShiftLeft, ShiftRight, ArithmeticShift, BitAnd, Wrap;
  }

  lemma OffsetOrder(a: u32, b: u32)
    ensures var x, y := AluValue(Add, a, 0x8000_0000), AluValue(Add, b, 0x8000_0000);
      (Says(CmpGe, a, b) <==> Says(CmpGeu, x, y)) && (Says(CmpG, a, b) <==> Says(CmpGu, x, y))
  {
    SumIs(a, 0x8000_0000);
    SumIs(b, 0x8000_0000);
    hide ShiftLeft, ShiftRight, ArithmeticShift, BitAnd, Wrap;
  }

  lemma Opposites(a: u32, b: u32)
    ensures Says(CmpGeu, a, b) <==> a >= b
    ensures Says(CmpNe, a, b) <==> !Says(CmpE, a, b)
    ensures Says(CmpGu, a, b) <==> !Says(CmpGeu, b, a)
    ensures Says(CmpG, a, b) <==> !Says(CmpGe, b, a)
  {
    hide ShiftLeft, ShiftRight, ArithmeticShift, BitAnd, Wrap;
  }

  lemma QuotientZero(a: u32, b: u32)
    requires b != 0
    ensures DivValue(Divu, a, b) == 0 <==> a < b
  {
    Instructions.UnsignedDivisionIdentity(a, b);
    hide DivValue;
    var q := DivValue(Divu, a, b);
    if q != 0 {
      Instructions.Grows(b, 1, q);
    }
  }

  /** Otherwise they say 0. */
  lemma ComparisonRange(op: AluOp, a: u32, b: u32)
    requires op == CmpE || op == CmpNe || op == CmpG || op == CmpGe || op == CmpGu || op == CmpGeu
    ensures !Says(op, a, b) ==> AluValue(op, a, b) == 0
  {
    hide ShiftLeft, ShiftRight, ArithmeticShift, BitAnd;
  }

  function ComparisonOf(c: Cond): (op: AluOp)
    ensures !ShiftOp(op)
  {
    match c
    case Equal => CmpE
    case NotEqual => CmpNe
    case Greater => CmpG
    case GreaterEq => CmpGe
    case GreaterU => CmpGu
    case GreaterEqU => CmpGeu
  }

  /** A branch is taken exactly when the comparison of its name says so. */
  lemma BranchesCompare(c: Cond, a: u32, b: u32)
    ensures Taken(c, a, b) <==> Says(ComparisonOf(c), a, b)
  {
    hide ShiftLeft, ShiftRight, ArithmeticShift, BitAnd;
  }
}
