/** Instruction set: fields, decoding and cycle costs.  Behaviour follows the
    LatticeMico32 Reference Manual, June 2012, chapter 5, as the program's
    decode table and instruction methods implement it. */
module Isa {
  import opened Words
  import opened Memory

  const NUM_REGS: nat := 32
  const FP_REG: nat := 27
  const SP_REG: nat := 28
  const RA_REG: nat := 29
  const EA_REG: nat := 30
  const BA_REG: nat := 31

  datatype AluOp =
    | Add | Sub | Mul
    | And | Or | Xor | Nor | Xnor
    | Sl | Sr | Sru
    | CmpE | CmpG | CmpGe | CmpGeu | CmpGu | CmpNe

  datatype DivOp = Div | Divu | Mod | Modu

  datatype Cond = Equal | NotEqual | Greater | GreaterEq | GreaterEqU | GreaterU

  datatype RaiseKind = BreakCall | SystemCall | OtherRaise

  /** Instructions by shape.  `y` and `z` are source registers, `x` the
      destination; `k` is an immediate already extended to 32 bits. */
  datatype Instr =
    | AluRR(op: AluOp, y: nat, z: nat, x: nat)
    | AluRI(op: AluOp, y: nat, x: nat, k: u32)
    | Divide(div: DivOp, y: nat, z: nat, x: nat)
    | Sext(half: bool, y: nat, x: nat)
    | Load(size: Size, signed: bool, y: nat, x: nat, k: u32)
    | Store(size: Size, y: nat, z: nat, k: u32)
    | Branch(cond: Cond, y: nat, z: nat, k: u32)
    | Jump(y: nat, z: nat, k: u32)
    | JumpReg(y: nat)
    | Call(y: nat)
    | CallI(k: u32)
    | Rcsr(csr: nat, x: nat)
    | Wcsr(csr: nat, z: nat)
    | Raise(kind: RaiseKind)
    | Reserved

  predicate Fields(i: Instr) {
    match i
    case AluRR(_, y, z, x) => y < 32 && z < 32 && x < 32
    case AluRI(_, y, x, _) => y < 32 && x < 32
    case Divide(_, y, z, x) => y < 32 && z < 32 && x < 32
    case Sext(_, y, x) => y < 32 && x < 32
    case Load(_, _, y, x, _) => y < 32 && x < 32
    case Store(_, y, z, _) => y < 32 && z < 32
    case Branch(_, y, z, _) => y < 32 && z < 32
    case Jump(y, z, _) => y < 32 && z < 32
    case JumpReg(y) => y < 32
    case Call(y) => y < 32
    case CallI(_) => true
    case Rcsr(csr, x) => csr < 32 && x < 32
    case Wcsr(csr, z) => csr < 32 && z < 32
    case Raise(_) => true
    case Reserved => true
  }

  // Fields of an instruction word.
  function Opcode(w: u32): (o: nat)
    ensures o < 64
  {
    w / 0x400_0000
  }

  function Reg0(w: u32): (r: nat)
    ensures r < 32
  {
    w / 0x20_0000 % 32
  }

  function Reg1(w: u32): (r: nat)
    ensures r < 32
  {
    w / 0x1_0000 % 32
  }

  function Reg2(w: u32): (r: nat)
    ensures r < 32
  {
    w / 0x800 % 32
  }

  function Imm16(w: u32): (k: nat)
    ensures k < 0x1_0000
  {
    w % 0x1_0000
  }

  function Imm26(w: u32): (k: nat)
    ensures k < 0x400_0000
  {
    w % 0x400_0000
  }

  const BREAK_WORD: u32 := 0xAC00_0002
  const SCALL_WORD: u32 := 0xAC00_0007

  function Rr(op: AluOp, w: u32): Instr { AluRR(op, Reg0(w), Reg1(w), Reg2(w)) }

  function RiSigned(op: AluOp, w: u32): Instr { AluRI(op, Reg0(w), Reg1(w), SignExt16(Imm16(w))) }

  function RiPlain(op: AluOp, w: u32): Instr { AluRI(op, Reg0(w), Reg1(w), Imm16(w)) }

  function RiHigh(op: AluOp, w: u32): Instr { AluRI(op, Reg0(w), Reg1(w), 0x1_0000 * Imm16(w)) }

  function Ld(sz: Size, signed: bool, w: u32): Instr { Load(sz, signed, Reg0(w), Reg1(w), SignExt16(Imm16(w))) }

  function St(sz: Size, w: u32): Instr { Store(sz, Reg0(w), Reg1(w), SignExt16(Imm16(w))) }

  function Br(c: Cond, w: u32): Instr { Branch(c, Reg0(w), Reg1(w), SignExt18(4 * Imm16(w))) }

  function Dv(d: DivOp, w: u32): Instr { Divide(d, Reg0(w), Reg1(w), Reg2(w)) }

  /** Opcodes with a 16-bit immediate. */
  function DecodeLow(w: u32): (i: Instr)
    ensures Fields(i)
  {
    match Opcode(w)
    case 0 => RiPlain(Sru, w)
    case 1 => RiPlain(Nor, w)
    case 2 => RiSigned(Mul, w)
    case 3 => St(Half, w)
    case 4 => Ld(Byte, true, w)
    case 5 => RiPlain(Sr, w)
    case 6 => RiPlain(Xor, w)
    case 7 => Ld(Half, true, w)
    case 8 => RiPlain(And, w)
    case 9 => RiPlain(Xnor, w)
    case 10 => Ld(Full, false, w)
    case 11 => Ld(Half, false, w)
    case 12 => St(Byte, w)
    case 13 => RiSigned(Add, w)
    case 14 => RiPlain(Or, w)
    case 15 => RiPlain(Sl, w)
    case 16 => Ld(Byte, false, w)
    case 17 => Br(Equal, w)
    case 18 => Br(Greater, w)
    case 19 => Br(GreaterEq, w)
    case 20 => Br(GreaterEqU, w)
    case 21 => Br(GreaterU, w)
    case 22 => St(Full, w)
    case 23 => Br(NotEqual, w)
    case 24 => RiHigh(And, w)
    case 25 => RiSigned(CmpE, w)
    case 26 => RiSigned(CmpG, w)
    case 27 => RiSigned(CmpGe, w)
    case 28 => RiPlain(CmpGeu, w)
    case 29 => RiPlain(CmpGu, w)
    case 30 => RiHigh(Or, w)
    case _ => RiSigned(CmpNe, w)
  }

  function DecodeHigh(w: u32): (i: Instr)
    ensures Fields(i)
  {
    match Opcode(w)
    case 32 => Rr(Sru, w)
    case 33 => Rr(Nor, w)
    case 34 => Rr(Mul, w)
    case 35 => Dv(Divu, w)
    case 36 => Rcsr(Reg0(w), Reg2(w))
    case 37 => Rr(Sr, w)
    case 38 => Rr(Xor, w)
    case 39 => Dv(Div, w)
    case 40 => Rr(And, w)
    case 41 => Rr(Xnor, w)
    case 42 => Reserved
    case 43 => Raise(if w == BREAK_WORD then BreakCall else if w == SCALL_WORD then SystemCall else OtherRaise)
    case 44 => Sext(false, Reg0(w), Reg2(w))
    case 45 => Rr(Add, w)
    case 46 => Rr(Or, w)
    case 47 => Rr(Sl, w)
    case 48 => JumpReg(Reg0(w))
    case 49 => Dv(Modu, w)
    case 50 => Rr(Sub, w)
    case 51 => Reserved
    case 52 => Wcsr(Reg0(w), Reg1(w))
    case 53 => Dv(Mod, w)
    case 54 => Call(Reg0(w))
    case 55 => Sext(true, Reg0(w), Reg2(w))
    case 56 => Jump(Reg0(w), Reg1(w), SignExt28(4 * Imm26(w)))
    case 57 => Rr(CmpE, w)
    case 58 => Rr(CmpG, w)
    case 59 => Rr(CmpGe, w)
    case 60 => Rr(CmpGeu, w)
    case 61 => Rr(CmpGu, w)
    case 62 => CallI(SignExt28(4 * Imm26(w)))
    case _ => Rr(CmpNe, w)
  }

  function Decode(w: u32): (i: Instr)
    ensures Fields(i)
  {
    if Opcode(w) < 32 then DecodeLow(w) else DecodeHigh(w)
  }

  // ---------------------------------------------------------------------------
  // Cycle costs: columns of the decode table
  // ---------------------------------------------------------------------------

  function AluResultCycles(op: AluOp): (n: nat) {
    match op
    case Mul => 3
    case Sl => 2 case Sr => 2 case Sru => 2
    case CmpE => 2 case CmpG => 2 case CmpGe => 2 case CmpGeu => 2 case CmpGu => 2 case CmpNe => 2
    case _ => 1
  }

  function ResultCycles(i: Instr): (n: nat) {
    match i
    case AluRR(op, _, _, _) => AluResultCycles(op)
    case AluRI(op, _, _, _) => AluResultCycles(op)
    case Divide(_, _, _, _) => 34
    case Load(_, _, _, _, _) => 3
    case Sext(_, _, _) => 1
    case Call(_) => 1
    case CallI(_) => 1
    case Rcsr(_, _) => 1
    case Wcsr(_, _) => 1
    case Reserved => 1
    case _ => 0
  }

  function IssueCycles(i: Instr): (n: nat)
    ensures n >= 1
  {
    match i
    case Divide(_, _, _, _) => 34
    case Branch(_, _, _, _) => 4
    case Jump(_, _, _) => 4
    case JumpReg(_) => 4
    case Call(_) => 4
    case CallI(_) => 4
    case Raise(_) => 4
    case _ => 1
  }

  const NOT_TAKEN_CYCLES: nat := 1

  // ---------------------------------------------------------------------------
  // Arithmetic
  // ---------------------------------------------------------------------------

  function Bool32(b: bool): u32 {
    if b then 1 else 0
  }

  /** Shifting a 32-bit word by 32 or more is undefined in the host language. */
  predicate ShiftOp(op: AluOp) {
    op == Sl || op == Sr || op == Sru
  }

  predicate AluDefined(op: AluOp, b: u32) {
    ShiftOp(op) ==> b < 32
  }

  function AluValue(op: AluOp, a: u32, b: u32): u32
    requires AluDefined(op, b)
  {
    match op
    case Add => Wrap(a + b)
    case Sub => Wrap(a - b)
    case Mul => Wrap(a * b)
    case And => And32(a, b)
    case Or => Or32(a, b)
    case Xor => Xor32(a, b)
    case Nor => Not32(Or32(a, b))
    case Xnor => Not32(Xor32(a, b))
    case Sl => ShiftLeft(a, b)
    case Sru => ShiftRight(a, b)
    case Sr => ArithmeticShift(a, b)
    case CmpE => Bool32(a == b)
    case CmpG => Bool32(Signed(a) > Signed(b))
    case CmpGe => Bool32(Signed(a) >= Signed(b))
    case CmpGeu => Bool32(a >= b)
    case CmpGu => Bool32(a > b)
    case CmpNe => Bool32(a != b)
  }

  function ShiftRight(a: u32, n: nat): u32
    decreases n
  {
    if n == 0 then a else ShiftRight(a / 2, n - 1)
  }

  function ShiftLeft(a: u32, n: nat): u32
    decreases n
  {
    if n == 0 then a else ShiftLeft(Wrap(2 * a), n - 1)
  }

  /** The program's expression: a logical shift, with the vacated bits set when
      the sign bit was.  The two operands of the OR have no bit in common. */
  function ArithmeticShift(a: u32, n: nat): u32
    requires n < 32
  {
    var filled := if a >= 0x8000_0000 then 0xffff_ffff - ShiftRight(0xffff_ffff, n) else 0;
    Wrap(ShiftRight(a, n) + filled)
  }

  predicate DivDefined(d: DivOp, a: u32, b: u32) {
    (d == Div || d == Mod) ==> !(a == 0x8000_0000 && b == 0xffff_ffff)
  }

  /** Signed division truncates towards zero. */
  function TruncDiv(a: int, b: int): int
    requires b != 0
  {
    if a >= 0 then (if b > 0 then a / b else -(a / -b))
    else (if b > 0 then -(-a / b) else -a / -b)
  }

  function DivValue(d: DivOp, a: u32, b: u32): u32
    requires b != 0
  {
    match d
    case Div => Wrap(TruncDiv(Signed(a), Signed(b)))
    case Divu => Wrap(a / b)
    case Mod => Wrap(Signed(a) - Signed(b) * TruncDiv(Signed(a), Signed(b)))
    case Modu => Wrap(a % b)
  }

  predicate Taken(c: Cond, a: u32, b: u32) {
    match c
    case Equal => a == b
    case NotEqual => a != b
    case Greater => Signed(a) > Signed(b)
    case GreaterEq => Signed(a) >= Signed(b)
    case GreaterEqU => a >= b
    case GreaterU => a > b
  }
}
