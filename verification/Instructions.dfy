/** What the instruction words and the arithmetic of the instruction set mean. */
module Instructions {
  import opened Words
  import opened Memory
  import opened Isa

  // ---------------------------------------------------------------------------
  // Encoding
  // ---------------------------------------------------------------------------

  /** Word formats: register-register, register-immediate, and immediate. */
  function FormatR(op: nat, y: nat, z: nat, x: nat): u32
    requires op < 64 && y < 32 && z < 32 && x < 32
  {
    0x400_0000 * op + 0x20_0000 * y + 0x1_0000 * z + 0x800 * x
  }

  function FormatI(op: nat, y: nat, z: nat, k: nat): u32
    requires op < 64 && y < 32 && z < 32 && k < 0x1_0000
  {
    0x400_0000 * op + 0x20_0000 * y + 0x1_0000 * z + k
  }

  function FormatJ(op: nat, k: nat): u32
    requires op < 64 && k < 0x400_0000
  {
    0x400_0000 * op + k
  }

  /** Can a 32-bit operand be had from a 16-bit immediate? */
  predicate Short(k: u32) {
    -0x8000 <= Signed(k) < 0x8000
  }

  /** Can a displacement be had from a word count of so many bits? */
  predicate Reaches(k: u32, limit: nat) {
    k % 4 == 0 && 0 - limit <= Signed(k) < limit
  }

  function RegisterOpcode(op: AluOp): (o: nat)
    ensures 32 <= o < 64
  {
    match op
    case Sru => 32 case Nor => 33 case Mul => 34 case Sr => 37 case Xor => 38 case And => 40
    case Xnor => 41 case Add => 45 case Or => 46 case Sl => 47 case Sub => 50
    case CmpE => 57 case CmpG => 58 case CmpGe => 59 case CmpGeu => 60 case CmpGu => 61 case CmpNe => 63
  }

  /** Operations on immediates that are sign-extended. */
  predicate SignedImmediate(op: AluOp) {
    op == Mul || op == Add || op == CmpE || op == CmpG || op == CmpGe || op == CmpNe
  }

  /** `andhi` and `orhi` take their immediate into the upper half. */
  predicate HighImmediate(op: AluOp, k: u32) {
    (op == And || op == Or) && k >= 0x1_0000 && k % 0x1_0000 == 0
  }

  function DivideOpcode(d: DivOp): nat {
    match d case Divu => 35 case Div => 39 case Modu => 49 case Mod => 53
  }

  function LoadOpcode(sz: Size, signed: bool): nat {
    match sz
    case Byte => if signed then 4 else 16
    case Half => if signed then 7 else 11
    case Full => 10
  }

  function StoreOpcode(sz: Size): nat {
    match sz case Byte => 12 case Half => 3 case Full => 22
  }

  function BranchOpcode(c: Cond): nat {
    match c
    case Equal => 17 case Greater => 18 case GreaterEq => 19
    case GreaterEqU => 20 case GreaterU => 21 case NotEqual => 23
  }

  /** Instructions that some word stands for. */
  predicate Encodable(i: Instr) {
    Fields(i) &&
    match i
    case AluRI(op, _, _, k) =>
      op != Sub && (if SignedImmediate(op) then Short(k) else k < 0x1_0000 || HighImmediate(op, k))
    case Load(sz, signed, _, _, k) => Short(k) && (sz == Full ==> !signed)
    case Store(_, _, _, k) => Short(k)
    case Branch(_, _, _, k) => Reaches(k, 0x2_0000)
    case Jump(y, z, k) =>
      Reaches(k, 0x800_0000)
      && y == k / 4 % 0x400_0000 / 0x20_0000 && z == k / 4 % 0x400_0000 / 0x1_0000 % 32
    case CallI(k) => Reaches(k, 0x800_0000)
    case Raise(kind) => true
    case _ => true
  }

  function Encode(i: Instr): u32
    requires Encodable(i)
  {
    match i
    case AluRR(op, y, z, x) => FormatR(RegisterOpcode(op), y, z, x)
    case AluRI(op, y, x, k) =>
      if HighImmediate(op, k) then FormatI(if op == And then 24 else 30, y, x, k / 0x1_0000)
      else FormatI(RegisterOpcode(op) - 32, y, x, k % 0x1_0000)
    case Divide(d, y, z, x) => FormatR(DivideOpcode(d), y, z, x)
    case Sext(half, y, x) => FormatR(if half then 55 else 44, y, 0, x)
    case Load(sz, signed, y, x, k) => FormatI(LoadOpcode(sz, signed), y, x, k % 0x1_0000)
    case Store(sz, y, z, k) => FormatI(StoreOpcode(sz), y, z, k % 0x1_0000)
    case Branch(c, y, z, k) => FormatI(BranchOpcode(c), y, z, k / 4 % 0x1_0000)
    case Jump(_, _, k) => FormatJ(56, k / 4 % 0x400_0000)
    case JumpReg(y) => FormatR(48, y, 0, 0)
    case Call(y) => FormatR(54, y, 0, 0)
    case CallI(k) => FormatJ(62, k / 4 % 0x400_0000)
    case Rcsr(csr, x) => FormatR(36, csr, 0, x)
    case Wcsr(csr, z) => FormatR(52, csr, z, 0)
    case Raise(kind) =>
      (match kind case BreakCall => BREAK_WORD case SystemCall => SCALL_WORD case OtherRaise => FormatJ(43, 0))
    case Reserved => FormatJ(42, 0)
  }

  lemma FieldsOfR(op: nat, y: nat, z: nat, x: nat)
    requires op < 64 && y < 32 && z < 32 && x < 32
    ensures var w := FormatR(op, y, z, x);
      Opcode(w) == op && Reg0(w) == y && Reg1(w) == z && Reg2(w) == x
  {
    var w := FormatR(op, y, z, x);
    ModUnique(w, 0x400_0000, op, 0x20_0000 * y + 0x1_0000 * z + 0x800 * x);
    ModUnique(w, 0x20_0000, 32 * op + y, 0x1_0000 * z + 0x800 * x);
    ModUnique(32 * op + y, 32, op, y);
    ModUnique(w, 0x1_0000, 32 * (32 * op + y) + z, 0x800 * x);
    ModUnique(32 * (32 * op + y) + z, 32, 32 * op + y, z);
    ModUnique(w, 0x800, 32 * (32 * (32 * op + y) + z) + x, 0);
    ModUnique(32 * (32 * (32 * op + y) + z) + x, 32, 32 * (32 * op + y) + z, x);
  }

  lemma FieldsOfI(op: nat, y: nat, z: nat, k: nat)
    requires op < 64 && y < 32 && z < 32 && k < 0x1_0000
    ensures var w := FormatI(op, y, z, k);
      Opcode(w) == op && Reg0(w) == y && Reg1(w) == z && Imm16(w) == k
  {
    var w := FormatI(op, y, z, k);
    ModUnique(w, 0x400_0000, op, 0x20_0000 * y + 0x1_0000 * z + k);
    ModUnique(w, 0x20_0000, 32 * op + y, 0x1_0000 * z + k);
    ModUnique(32 * op + y, 32, op, y);
    ModUnique(w, 0x1_0000, 32 * (32 * op + y) + z, k);
    ModUnique(32 * (32 * op + y) + z, 32, 32 * op + y, z);
  }

  lemma FieldsOfJ(op: nat, k: nat)
    requires op < 64 && k < 0x400_0000
    ensures var w := FormatJ(op, k);
      Opcode(w) == op && Imm26(w) == k && Reg0(w) == k / 0x20_0000 && Reg1(w) == k / 0x1_0000 % 32
  {
    var w := FormatJ(op, k);
    ModUnique(w, 0x400_0000, op, k);
    var q := k / 0x20_0000;
    ModUnique(w, 0x20_0000, 32 * op + q, k % 0x20_0000);
    ModUnique(32 * op + q, 32, op, q);
    var h := k / 0x1_0000;
    ModUnique(w, 0x1_0000, 1024 * op + h, k % 0x1_0000);
    ModUnique(1024 * op + h, 32, 32 * op + h / 32, h % 32);
  }

  lemma ShortExtends(k: u32)
    requires Short(k)
    ensures SignExt16(k % 0x1_0000) == k
  {
    if k >= 0x8000_0000 {
      ModUnique(k, 0x1_0000, 0xffff, k - 0xffff_0000);
    }
  }

  lemma ReachExtends(k: u32)
    ensures Reaches(k, 0x2_0000) ==> SignExt18(4 * (k / 4 % 0x1_0000)) == k
    ensures Reaches(k, 0x800_0000) ==> SignExt28(4 * (k / 4 % 0x400_0000)) == k
  {
    Extends18(k);
    Extends28(k);
    hide Reaches, SignExt18, SignExt28;
  }

  lemma Extends18(k: u32)
    ensures Reaches(k, 0x2_0000) ==> SignExt18(4 * (k / 4 % 0x1_0000)) == k
  {
    if Reaches(k, 0x2_0000) {
      var q := k / 4;
      ModUnique(q, 0x1_0000, if k < 0x8000_0000 then 0 else 0x3fff, if k < 0x8000_0000 then q else q - 0x3fff_0000);
    }
  }

  lemma Extends28(k: u32)
    ensures Reaches(k, 0x800_0000) ==> SignExt28(4 * (k / 4 % 0x400_0000)) == k
  {
    if Reaches(k, 0x800_0000) {
      var q := k / 4;
      ModUnique(q, 0x400_0000, if k < 0x8000_0000 then 0 else 0xf, if k < 0x8000_0000 then q else q - 0x3c00_0000);
    }
  }

  lemma DecodesRegister(i: Instr)
    requires Encodable(i)
    requires i.AluRR? || i.Divide? || i.Sext? || i.JumpReg? || i.Call? || i.Rcsr? || i.Wcsr?
    ensures Decode(Encode(i)) == i
  {
    hide FormatR, Opcode, Reg0, Reg1, Reg2;
    match i
    case AluRR(op, y, z, x) => FieldsOfR(RegisterOpcode(op), y, z, x);
    case Divide(d, y, z, x) => FieldsOfR(DivideOpcode(d), y, z, x);
    case Sext(half, y, x) => FieldsOfR(if half then 55 else 44, y, 0, x);
    case JumpReg(y) => FieldsOfR(48, y, 0, 0);
    case Call(y) => FieldsOfR(54, y, 0, 0);
    case Rcsr(csr, x) => FieldsOfR(36, csr, 0, x);
    case Wcsr(csr, z) => FieldsOfR(52, csr, z, 0);
  }

  lemma DecodesImmediate(i: Instr)
    requires Encodable(i) && i.AluRI?
    ensures Decode(Encode(i)) == i
  {
    var k := i.k;
    hide FormatI, Opcode, Reg0, Reg1, Imm16, SignExt16, Short;
    if Short(k) {
      ShortExtends(k);
    }
    if HighImmediate(i.op, k) {
      FieldsOfI(if i.op == And then 24 else 30, i.y, i.x, k / 0x1_0000);
    } else {
      FieldsOfI(RegisterOpcode(i.op) - 32, i.y, i.x, k % 0x1_0000);
    }
  }

  lemma DecodesMemory(i: Instr)
    requires Encodable(i) && (i.Load? || i.Store? || i.Branch?)
    ensures Decode(Encode(i)) == i
  {
    if i.Branch? {
      ReachExtends(i.k);
    } else {
      ShortExtends(i.k);
    }
    hide FormatI, Opcode, Reg0, Reg1, Imm16, SignExt16, SignExt18, Short, Reaches;
    match i
    case Load(sz, signed, y, x, k) => FieldsOfI(LoadOpcode(sz, signed), y, x, k % 0x1_0000);
    case Store(sz, y, z, k) => FieldsOfI(StoreOpcode(sz), y, z, k % 0x1_0000);
    case Branch(c, y, z, k) => FieldsOfI(BranchOpcode(c), y, z, k / 4 % 0x1_0000);
  }

  lemma DecodesJump(i: Instr)
    requires Encodable(i) && (i.Jump? || i.CallI? || i.Raise? || i.Reserved?)
    ensures Decode(Encode(i)) == i
  {
    match i
    case Jump(_, _, k) =>
      ReachExtends(k);
      FieldsOfJ(56, k / 4 % 0x400_0000);
      hide FormatJ, Opcode, Imm26, Reg0, Reg1, SignExt28, Reaches;
    case CallI(k) =>
      ReachExtends(k);
      FieldsOfJ(62, k / 4 % 0x400_0000);
      hide FormatJ, Opcode, Imm26, Reg0, Reg1, SignExt28, Reaches;
    case Raise(kind) =>
      assert FormatJ(43, 0) == 0xac00_0000;
      assert Opcode(BREAK_WORD) == Opcode(SCALL_WORD) == Opcode(0xac00_0000) == 43;
    case Reserved => FieldsOfJ(42, 0);
  }

  /** The decoder undoes the encoder, on every instruction that has a word. */
  lemma DecodeEncode(i: Instr)
    requires Encodable(i)
    ensures Decode(Encode(i)) == i
  {
    hide Decode, Encode, Encodable;
    match i
    case AluRI(_, _, _, _) => DecodesImmediate(i);
    case Load(_, _, _, _, _) => DecodesMemory(i);
    case Store(_, _, _, _) => DecodesMemory(i);
    case Branch(_, _, _, _) => DecodesMemory(i);
    case Jump(_, _, _) => DecodesJump(i);
    case CallI(_) => DecodesJump(i);
    case Raise(_) => DecodesJump(i);
    case Reserved => DecodesJump(i);
    case _ => DecodesRegister(i);
  }

  // ---------------------------------------------------------------------------
  // Arithmetic
  // ---------------------------------------------------------------------------

  lemma {:induction false} ShiftRightDivides(a: u32, n: nat)
    ensures ShiftRight(a, n) == a / Pow2(n)
    decreases n
  {
    if n > 0 {
      ShiftRightDivides(a / 2, n - 1);
      DivTwice(a, Pow2(n - 1));
    } else {
      assert Pow2(0) == 1;
    }
  }

  lemma DivTwice(a: nat, p: nat)
    requires p > 0
    ensures a / 2 / p == a / (2 * p)
  {
    var q, r := a / 2 / p, a / 2 % p;
    assert a / 2 == p * q + r;
    assert a == (2 * p) * q + (2 * r + a % 2) by {
      assert (2 * p) * q == 2 * (p * q);
    }
    ModUnique(a, 2 * p, q, 2 * r + a % 2);
  }

  lemma {:induction false} ShiftLeftMultiplies(a: u32, n: nat)
    ensures ShiftLeft(a, n) == Wrap(a * Pow2(n))
    decreases n
  {
    if n > 0 {
      var b, k, p := Wrap(2 * a), 2 * a / 0x1_0000_0000, Pow2(n - 1);
      ShiftLeftMultiplies(b, n - 1);
      Carried(a, b, k, p);
      WrapAdds(b * p, k * p);
      hide Wrap;
    }
  }

  lemma Carried(a: int, b: int, k: int, p: int)
    requires 2 * a == 0x1_0000_0000 * k + b
    ensures a * (2 * p) == b * p + 0x1_0000_0000 * (k * p)
  {
    assert a * (2 * p) == (2 * a) * p;
    assert (0x1_0000_0000 * k + b) * p == 0x1_0000_0000 * (k * p) + b * p;
  }

  lemma WrapAdds(x: int, k: int)
    ensures Wrap(x + 0x1_0000_0000 * k) == Wrap(x)
  {
    ModUnique(x + 0x1_0000_0000 * k, 0x1_0000_0000, x / 0x1_0000_0000 + k, x % 0x1_0000_0000);
  }

  lemma {:induction false} PowersAdd(m: nat, n: nat)
    ensures Pow2(m) * Pow2(n) == Pow2(m + n)
    decreases m
  {
    if m > 0 {
      PowersAdd(m - 1, n);
      assert 2 * Pow2(m - 1) * Pow2(n) == 2 * (Pow2(m - 1) * Pow2(n));
    }
  }

  lemma Halves(n: nat)
    requires n < 32
    ensures var p, q := Pow2(n), Pow2(32 - n);
      p * q == 0x1_0000_0000 && q >= 2 && p * (q / 2) == 0x8000_0000
  {
    PowersAdd(n, 32 - n);
    PowersAdd(n, 31 - n);
    assert Pow2(32 - n) == 2 * Pow2(31 - n);
    assert Pow2(16) == 0x1_0000 by { assert Pow2(8) == 0x100; }
    assert Pow2(31) == 0x8000_0000 by { assert Pow2(24) == 0x100_0000; }
  }

  /** The arithmetic shift is division by a power of two, rounded down. */
  lemma ArithmeticShiftIsFloor(a: u32, n: nat)
    requires n < 32
    ensures Signed(ArithmeticShift(a, n)) == Signed(a) / Pow2(n)
  {
    ShiftRightDivides(a, n);
    ShiftRightDivides(0xffff_ffff, n);
    Halves(n);
    hide ShiftRight, Pow2, Wrap;
    var p, q := Pow2(n), Pow2(32 - n);
    var d := ShiftRight(a, n);
    FloorBounds(a, p, q);
    if a >= 0x8000_0000 {
      AllOnesShifted(p, q);
      NegativeFloor(a, p, q);
      SignedWrap(d - q);
      WrapAdds(d - q, 1);
      assert ArithmeticShift(a, n) == Wrap(d - q + 0x1_0000_0000 * 1);
    } else {
      SignedWrap(d);
      assert ArithmeticShift(a, n) == Wrap(d);
    }
  }

  lemma FloorBounds(a: u32, p: nat, q: nat)
    requires p > 0 && q >= 2 && p * q == 0x1_0000_0000 && p * (q / 2) == 0x8000_0000
    ensures 0 <= a / p < q <= 0x1_0000_0000
    ensures a >= 0x8000_0000 ==> a / p >= q / 2
    ensures a < 0x8000_0000 ==> a / p < q / 2 <= 0x8000_0000
  {
    var d := a / p;
    assert a == p * d + a % p;
    if d >= q {
      Grows(p, q, d);
    }
    if d < q / 2 {
      Grows(p, d + 1, q / 2);
      assert p * (d + 1) == p * d + p;
    } else {
      Grows(p, q / 2, d);
    }
    Grows2(p, q);
    Grows2(p, q / 2);
  }

  lemma Grows(p: nat, x: nat, y: nat)
    requires x <= y
    ensures p * x <= p * y
  {
  }

  lemma Grows2(p: nat, x: nat)
    requires p > 0
    ensures x <= p * x
  {
  }

  lemma AllOnesShifted(p: nat, q: nat)
    requires p > 0 && q > 0 && p * q == 0x1_0000_0000
    ensures 0xffff_ffff / p == q - 1
  {
    assert p * (q - 1) == p * q - p;
    ModUnique(0xffff_ffff, p, q - 1, p - 1);
  }

  lemma NegativeFloor(a: u32, p: nat, q: nat)
    requires p > 0 && p * q == 0x1_0000_0000
    ensures (a - 0x1_0000_0000) / p == a / p - q
  {
    assert a == p * (a / p) + a % p;
    assert p * (a / p - q) == p * (a / p) - p * q;
    ModUnique(a - 0x1_0000_0000, p, a / p - q, a % p);
  }

  lemma SignedWrap(x: int)
    requires -0x8000_0000 <= x < 0x8000_0000
    ensures Signed(Wrap(x)) == x
  {
  }

  function Abs(x: int): nat {
    if x >= 0 then x else -x
  }

  function Quotient(u: nat, v: nat): nat
    requires v > 0
  {
    u / v
  }

  lemma TruncDivIs(a: int, b: int)
    requires b != 0
    ensures var d := Quotient(Abs(a), Abs(b));
      TruncDiv(a, b) == if (a >= 0) == (b > 0) then d else 0 - d
  {
  }

  /** The product of divisor and quotient, sign by sign. */
  lemma ProductIs(a: int, b: int, q: int, v: nat, d: nat)
    requires v == Abs(b) && q == if (a >= 0) == (b > 0) then d else 0 - d
    ensures b * q == if a >= 0 then v * d else 0 - v * d
  {
    assert (0 - v) * d == 0 - v * d && v * (0 - d) == 0 - v * d && (0 - v) * (0 - d) == v * d;
  }

  function Product(b: int, q: int): int {
    b * q
  }

  /** Truncating division of whole numbers. */
  lemma Truncates(a: int, b: int, q: int)
    requires b != 0 && q == TruncDiv(a, b)
    ensures Abs(a - Product(b, q)) < Abs(b)
    ensures a - Product(b, q) == 0 || (a - Product(b, q) < 0 <==> a < 0)
    ensures Abs(q) <= Abs(a)
    ensures Abs(q) == Abs(a) && a != 0 ==> Abs(b) == 1
  {
    TruncDivIs(a, b);
    assert Abs(b) > 0;
    hide TruncDiv, Product, Abs, Quotient;
    SmallQuotient(Abs(a), Abs(b));
    SignsAgree(a, b, q, Quotient(Abs(a), Abs(b)));
  }

  lemma SignsAgree(a: int, b: int, q: int, d: nat)
    requires b != 0 && Product(Abs(b), d) <= Abs(a) < Product(Abs(b), d) + Abs(b)
    requires q == if (a >= 0) == (b > 0) then d else 0 - d
    requires d <= Abs(a) && (d == Abs(a) && d > 0 ==> Abs(b) == 1)
    ensures Abs(a - Product(b, q)) < Abs(b)
    ensures a - Product(b, q) == 0 || (a - Product(b, q) < 0 <==> a < 0)
    ensures Abs(q) <= Abs(a)
    ensures Abs(q) == Abs(a) && a != 0 ==> Abs(b) == 1
  {
    ProductIs(a, b, q, Abs(b), d);
    Remainders(a, b, b * q, Abs(b) * d, Abs(a) - Abs(b) * d);
  }

  lemma SmallQuotient(u: nat, v: nat)
    requires v > 0
    ensures var d := Quotient(u, v);
      && Product(v, d) <= u < Product(v, d) + v
      && d <= u && (d == u && d > 0 ==> v == 1)
  {
    var d := u / v;
    assert u == v * d + u % v;
    Grows2(v, d);
    if d == u && u > 0 && v >= 2 {
      Grows(d, 2, v);
    }
  }

  lemma Remainders(a: int, b: int, product: int, whole: nat, m: nat)
    requires Abs(a) == whole + m && m < Abs(b)
    requires product == if a >= 0 then whole else 0 - whole
    ensures var r := a - product;
      Abs(r) < Abs(b) && (r == 0 || (r < 0 <==> a < 0))
  {
  }

  /** div and mod together: the quotient truncates towards zero, the remainder
      takes the sign of the dividend and is smaller than the divisor. */
  lemma DivisionIdentity(a: u32, b: u32)
    requires b != 0 && DivDefined(Div, a, b)
    ensures var q, r := Signed(DivValue(Div, a, b)), Signed(DivValue(Mod, a, b));
      && Signed(a) == Signed(b) * q + r
      && Abs(r) < Abs(Signed(b))
      && (r == 0 || (r < 0 <==> Signed(a) < 0))
  {
    var x, y := Signed(a), Signed(b);
    var q := TruncDiv(x, y);
    Truncates(x, y, q);
    hide TruncDiv, Wrap, Signed;
    SignedRange(a);
    SignedRange(b);
    SignedWrap(q);
    SignedWrap(x - y * q);
  }

  lemma SignedRange(a: u32)
    ensures -0x8000_0000 <= Signed(a) < 0x8000_0000
    ensures Signed(a) == 0 <==> a == 0
    ensures Signed(a) == -1 <==> a == 0xffff_ffff
    ensures Signed(a) == -0x8000_0000 <==> a == 0x8000_0000
  {
  }

  lemma UnsignedDivisionIdentity(a: u32, b: u32)
    requires b != 0
    ensures var q, r := DivValue(Divu, a, b), DivValue(Modu, a, b);
      a == b * q + r && r < b
  {
    assert a == b * (a / b) + a % b;
    Grows2(b, a / b);
    hide TruncDiv;
    assert Wrap(a / b) == a / b && Wrap(a % b) == a % b;
  }
}
